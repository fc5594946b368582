/**
 * Where the emulator does something other than the architecture asks, and exactly when: superpages
 * that are not aligned, causes of faulting atomic accesses and stores, reserved trap-vector modes.
 */
module Departures {
  import opened Words
  import opened Bus
  import opened Sv39
  import opened Privilege
  import opened StatusWord
  import opened Decode
  import opened Exec

  // ----- Superpages (step 6 of section 4.3.2 of the Privileged ISA)

  /** The page number of a larger page has low bits that are not zero. */
  predicate Misplaced(p: Pte, pagesize: nat) {
    (pagesize >= 2 && p.ppn0 != 0) || (pagesize == 3 && p.ppn1 != 0)
  }

  /** The walk that takes such a leaf for a page fault, as the architecture asks. */
  function StrictWalkFrom(b: BusState, table: nat, va: u64, level: nat): Walked
    requires 1 <= level <= 3
    decreases level
  {
    var at := table + Vpn(va, level) * 8;
    if at >= TWO_TO_THE_64 then BadTable else
    match Load(b, at, 8)
    case None => BadTable
    case Some(bytes) =>
      var pte := DecodePte(FromBytes(bytes));
      if IsValidLeafPte(pte) then (if Misplaced(pte, level) then NoLeaf else Leaf(pte, level))
      else if level == 1 || !IsValidDirPte(pte) then NoLeaf
      else StrictWalkFrom(b, PteTarget(pte), va, level - 1)
  }

  lemma {:induction false} StrictFromExactly(b: BusState, table: nat, va: u64, level: nat)
    requires 1 <= level <= 3
    ensures var w := WalkFrom(b, table, va, level);
            StrictWalkFrom(b, table, va, level) == w <==> !(w.Leaf? && Misplaced(w.pte, w.pagesize))
    decreases level
  {
    hide DecodePte, PteTarget, Vpn, IsValidLeafPte, IsValidDirPte, Load, FromBytes, Misplaced;
    var at := table + Vpn(va, level) * 8;
    if at < TWO_TO_THE_64 && Load(b, at, 8).Some? {
      var pte := DecodePte(FromBytes(Load(b, at, 8).value));
      if !IsValidLeafPte(pte) && level > 1 && IsValidDirPte(pte) {
        StrictFromExactly(b, PteTarget(pte), va, level - 1);
      }
    }
  }

  lemma {:induction false} LeafFields(b: BusState, table: nat, va: u64, level: nat)
    requires 1 <= level <= 3
    ensures var w := WalkFrom(b, table, va, level);
            w.Leaf? ==> w.pte.ppn0 < 0x200 && w.pte.ppn1 < 0x200 && 1 <= w.pagesize <= 3
    decreases level
  {
    hide PteTarget, Vpn, IsValidLeafPte, IsValidDirPte, Load, FromBytes;
    var at := table + Vpn(va, level) * 8;
    if at < TWO_TO_THE_64 && Load(b, at, 8).Some? {
      var pte := DecodePte(FromBytes(Load(b, at, 8).value));
      if !IsValidLeafPte(pte) && level > 1 && IsValidDirPte(pte) {
        LeafFields(b, PteTarget(pte), va, level - 1);
      }
    }
  }

  function PageSize(pagesize: nat): (size: nat)
    ensures size > 0
  {
    if pagesize == 3 then 0x4000_0000 else if pagesize == 2 then 0x20_0000 else 0x1000
  }

  lemma TargetAligned(p: Pte, pagesize: nat)
    requires 1 <= pagesize <= 3 && p.ppn0 < 0x200 && p.ppn1 < 0x200
    ensures PteTarget(p) % PageSize(pagesize) == 0 <==> !Misplaced(p, pagesize)
  {
  }

  /**
   * The walk accepts what the architecture accepts, except a leaf whose page does not begin at a
   * multiple of its size: then the architecture has a page fault, and the emulator a translation.
   */
  lemma WalkStrictExactly(b: BusState, root: nat, va: u64)
    ensures var w := Walk(b, root, va);
            StrictWalkFrom(b, root * 0x1000, va, 3) == w
            <==> !(w.Leaf? && PteTarget(w.pte) % PageSize(w.pagesize) != 0)
  {
    hide WalkFrom, StrictWalkFrom, Misplaced, PteTarget;
    StrictFromExactly(b, root * 0x1000, va, 3);
    LeafFields(b, root * 0x1000, va, 3);
    var w := Walk(b, root, va);
    if w.Leaf? {
      TargetAligned(w.pte, w.pagesize);
    }
  }

  /** For one: a table entry of 0x403 at level 3 is a leaf of 1 GB at the address 0x1000. */
  lemma MisplacedLeaf()
    ensures var b := BusState(ToBytes(0x403, 8), 0, Reservation(false, 0, 0, 0));
            && Walk(b, 0, 0).Leaf? && Walk(b, 0, 0).pagesize == 3 && PteTarget(Walk(b, 0, 0).pte) == 0x1000
            && StrictWalkFrom(b, 0, 0, 3) == NoLeaf
  {
    hide ToBytes, FromBytes, DecodePte, IsValidLeafPte, IsValidDirPte, PteTarget, Misplaced, Vpn;
    var bytes := ToBytes(0x403, 8);
    EightBytes(0x403);
    MisplacedEntry();
    assert bytes[0..][..8] == bytes;
  }

  lemma MisplacedEntry()
    ensures Vpn(0, 3) == 0
    ensures var p := DecodePte(0x403); IsValidLeafPte(p) && PteTarget(p) == 0x1000 && Misplaced(p, 3)
  {
  }

  // ----- Causes of faults

  /** The cause that a trap of this code records. */
  function RecordedCause(c: Core, c': Core, code: Exception): u64 {
    if Delegated(c, code, false) then c'.csrs.s.cause else c'.csrs.m.cause
  }

  lemma CauseIsCode(c: Core, code: Exception, tval: u64)
    requires !c.needTrap && code != NO_INT
    ensures RecordedCause(c, RaiseTrap(c, code, false, tval), code) == code
  {
    hide TrapMStatus, TrapSStatus, TrapTarget, PrivBits, Bit;
  }

  /**
   * A load-reserved that faults records cause 6, 7 or 15, which is two more than a load with the
   * same fault would record.
   */
  lemma ReservedLoadFaults(m: Machine, rd: RegNo, va: u64, size: Size, len: nat)
    requires WellFormed(m) && !m.core.needTrap
    requires Mem(m, LoadReserved(len), va).1.Faulted?
    ensures var code := StoreCode(Mem(m, LoadReserved(len), va).1.fault);
            var c' := Exec.Perform(m, Atomic(rd, va, size, LoadReserved(len))).m.core;
            && code in {6, 7, 15} && RecordedCause(m.core, c', code) == code
            && code == LoadCode(Mem(m, LoadReserved(len), va).1.fault) + 2
  {
    hide Mem, RaiseTrap, RecordedCause;
    CauseIsCode(m.core, StoreCode(Mem(m, LoadReserved(len), va).1.fault), va);
  }

  /** The answer of the lookup for an address, in the cache if there is one. */
  function LookupOf(m: Machine, va: u64): Lookup
    requires WellFormed(m)
  {
    match m.tlb
    case Some(t) => GetEntry(t, m.bus, ContextOf(m.core), va).1
    case None => FreshEntry(m.bus, ContextOf(m.core), va)
  }

  /** The physical address an access reaches, if translation lets it through. */
  function PhysicalAddress(m: Machine, a: Access, va: u64): Option<u64>
    requires WellFormed(m)
  {
    var c := ContextOf(m.core);
    if Bare(c, a) then Some(va)
    else if CrossesPage(va, Length(a)) then None
    else
      match LookupOf(m, va)
      case Hit(e) => if Denied(c, a, e).Some? then None else Some(Wrap64(e.ppa + PageOffset(va, e.pagesize)))
      case _ => None
  }

  /** The access stores, or would, at an address where there is no memory. */
  predicate StoresNowhere(m: Machine, a: Access, va: u64)
    requires WellFormed(m)
  {
    match PhysicalAddress(m, a, va)
    case None => false
    case Some(pa) =>
      match a
      case Write(bytes) => !InMemory(m.bus, pa, |bytes|)
      case StoreConditional(bytes) =>
        Check(m.bus, pa, |bytes|, m.core.csrs.hartid).1 && !InMemory(m.bus, pa, |bytes|)
      case _ => false
  }

  /**
   * A store, or a store-conditional that holds its reservation, to where there is no memory is an
   * access fault only without translation; with it, the code of a page fault is reported.
   */
  lemma StoreNowhereFaults(m: Machine, a: Access, va: u64)
    requires WellFormed(m) && StoresNowhere(m, a, va)
    ensures var r := Mem(m, a, va).1;
            && r.Faulted?
            && (StoreCode(r.fault) == 15 <==> !Bare(ContextOf(m.core), a))
            && (StoreCode(r.fault) == 7 <==> Bare(ContextOf(m.core), a))
  {
    hide FreshEntry, GetEntry, Denied, CrossesPage, Covers, Overwrite, Flag, Mpp;
  }

  // ----- Trap vectors

  /** Exactly a reserved mode written to mtvec stops the emulator; written to stvec it becomes direct. */
  lemma VectorModes(c: Csrs, priv: Priv, index: nat, data: u64)
    ensures CsrWrite(c, priv, index, data).WriteStops? <==> index == 0x305 && data % 4 > 1
    ensures index == 0x105 && data % 4 > 1 ==>
              CsrWrite(c, priv, index, data) == Written(c.(s := c.s.(tvec := data - data % 4)))
  {
    hide Bits, WriteMStatus, WriteSStatus, Legal, Merged, LegalSatp, Word, Flag;
  }

  // ----- The reserved privilege mode

  lemma ReservedBits(status: bv64)
    ensures Mpp(WriteMStatus(status, 0x1000)) == H
  {
    hide CopyFld, Masked;
    WriteMStatusIsMasked(status, 0x1000);
    ReservedMasked(status);
  }

  lemma ReservedMasked(status: bv64)
    ensures Mpp(Masked(status, 0x1000, M_WRITABLE)) == H
  {
  }

  /** A write of mstatus can save the reserved mode, and mret then enters it. */
  lemma ReservedModeReached(c: Core)
    requires c.priv == M
    ensures var w := CsrWrite(c.csrs, M, 0x300, Word(0x1000));
            w.Written? && Mret(c.(csrs := w.csrs)).Some? && Mret(c.(csrs := w.csrs)).value.nextPriv == H
  {
    hide Word, Bits, WriteMStatus, MretStatus, Mpp;
    BitsOfWord(0x1000);
    ReservedBits(c.csrs.status);
  }
}
