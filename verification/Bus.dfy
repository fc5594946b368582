/**
 * The system bus: main memory behind one window of physical addresses, and the single
 * load reservation that all harts share.  No peripheral is registered, so an access
 * outside main memory finds no device.
 */
module Bus {
  import opened Words

  datatype Reservation = Reservation(valid: bool, hart: nat, addr: u64, len: nat)

  datatype BusState = BusState(mem: seq<byte>, base: u64, res: Reservation)

  predicate InMemory(b: BusState, addr: u64, len: nat) {
    b.base <= addr && addr + len <= b.base + |b.mem|
  }

  function Load(b: BusState, addr: u64, len: nat): Option<seq<byte>> {
    if InMemory(b, addr, len) then Some(b.mem[addr - b.base..][..len]) else None
  }

  /** A copy of `mem` holding `bytes` from index `at` on. */
  function Overwrite(mem: seq<byte>, at: nat, bytes: seq<byte>): seq<byte>
    requires at + |bytes| <= |mem|
  {
    mem[..at] + bytes + mem[at + |bytes|..]
  }

  /** Does a store of `len` bytes at `addr` cover the whole reserved range? */
  predicate Covers(res: Reservation, addr: u64, len: nat) {
    addr <= res.addr && Wrap64(res.addr + res.len) <= Wrap64(addr + len)
  }

  /** The reservation is given up only by a store that covers it, even if that store faults. */
  function Kill(res: Reservation, addr: u64, len: nat): Reservation {
    if res.valid && Covers(res, addr, len) then res.(valid := false) else res
  }

  function Store(b: BusState, addr: u64, bytes: seq<byte>): (BusState, bool) {
    var killed := b.(res := Kill(b.res, addr, |bytes|));
    if InMemory(b, addr, |bytes|) then
      (killed.(mem := Overwrite(b.mem, addr - b.base, bytes)), true)
    else
      (killed, false)
  }

  function Reserve(b: BusState, addr: u64, len: nat, hart: nat): BusState {
    b.(res := Reservation(true, hart, addr, len))
  }

  /** Consumes the reservation; succeeds when it was made by this hart for this very range. */
  function Check(b: BusState, addr: u64, len: nat, hart: nat): (BusState, bool) {
    if !b.res.valid then (b, false)
    else (b.(res := b.res.(valid := false)), addr == b.res.addr && hart == b.res.hart && len == b.res.len)
  }

  class AddrBus {
    const mainMem: array<byte>
    const memBegin: u64
    var reservationValid: bool
    var reserveForHart: nat
    var reserveBeginAddr: u64
    var reserveLen: nat

    ghost function State(): BusState
      reads this, mainMem
    {
      BusState(mainMem[..], memBegin,
               Reservation(reservationValid, reserveForHart, reserveBeginAddr, reserveLen))
    }

    constructor (mem: array<byte>, begin: u64)
      ensures mainMem == mem && memBegin == begin && !reservationValid
    {
      mainMem, memBegin := mem, begin;
      reservationValid, reserveForHart, reserveBeginAddr, reserveLen := false, 0, 0, 0;
    }

    method DoReserve(addr: u64, len: nat, hart: nat)
      modifies this
      ensures State() == Reserve(old(State()), addr, len, hart)
    {
      reserveBeginAddr, reserveLen, reserveForHart := addr, len, hart;
      reservationValid := true;
    }

    method DoCheck(addr: u64, len: nat, hart: nat) returns (ok: bool)
      modifies this
      ensures (State(), ok) == Check(old(State()), addr, len, hart)
    {
      if !reservationValid {
        return false;
      }
      reservationValid := false;
      ok := addr == reserveBeginAddr && hart == reserveForHart && len == reserveLen;
    }

    method DoLoad(addr: u64, len: nat) returns (data: Option<seq<byte>>)
      ensures data == Load(State(), addr, len)
    {
      if memBegin <= addr && addr + len <= memBegin + mainMem.Length {
        data := Some(mainMem[addr - memBegin..][..len]);
      } else {
        data := None;
      }
    }

    method DoStore(addr: u64, bytes: seq<byte>) returns (ok: bool)
      modifies this, mainMem
      ensures (State(), ok) == Store(old(State()), addr, bytes)
    {
      if reservationValid {
        if addr <= reserveBeginAddr && Wrap64(reserveBeginAddr + reserveLen) <= Wrap64(addr + |bytes|) {
          reservationValid := false;
        }
      }
      ok := memBegin <= addr && addr + |bytes| <= memBegin + mainMem.Length;
      if ok {
        ghost var before := mainMem[..];
        var at := addr - memBegin;
        forall i | 0 <= i < |bytes| {
          mainMem[at + i] := bytes[i];
        }
        assert mainMem[..] == Overwrite(before, at, bytes);
      }
    }
  }
}
