/** The memory-management unit as an object: the cache is an array that its methods update. */
module Sv39Mmu {
  import opened Words
  import Bus
  import opened Sv39

  class Mmu {
    const tlb: array<Entry>
    const bus: Bus.AddrBus
    var lastSwappedIndex: nat

    ghost predicate Valid()
      reads this
    {
      tlb.Length == TLB_SIZE && lastSwappedIndex < TLB_SIZE
    }

    ghost function State(): Tlb
      reads this, tlb
    {
      Tlb(tlb[..], lastSwappedIndex)
    }

    constructor (bus: Bus.AddrBus, blank: Entry)
      ensures Valid() && fresh(tlb) && this.bus == bus
      ensures State().Valid() && forall e :: e in State().entries ==> e.pagesize == 0
    {
      this.bus := bus;
      lastSwappedIndex := 0;
      tlb := new Entry[TLB_SIZE](i => blank);
      new;
      for i := 0 to TLB_SIZE
        invariant Valid() && forall j :: 0 <= j < i ==> tlb[j].pagesize == 0
      {
        tlb[i] := tlb[i].(pagesize := 0);
      }
    }

    method IndexToSwapOut() returns (index: nat)
      requires Valid()
      modifies this
      ensures Valid() && index == old(lastSwappedIndex)
      ensures lastSwappedIndex == (index + 1) % TLB_SIZE
    {
      index := lastSwappedIndex;
      lastSwappedIndex := (lastSwappedIndex + 1) % TLB_SIZE;
    }

    method WriteTlb(pte: Pte, pagesize: nat, asid: nat, va: u64) returns (e: Entry)
      requires Valid()
      modifies this, tlb
      ensures Valid() && e == Fill(pte, pagesize, asid, va)
      ensures State() == Replace(old(State()), e)
    {
      var index := IndexToSwapOut();
      e := Entry(PteTarget(pte), PageBase(va, pagesize), asid, pagesize,
                 pte.r, pte.w, pte.x, pte.u, pte.g, pte.a, pte.d);
      tlb[index] := e;
    }

    method ReadPte(table: nat, va: u64, level: nat) returns (pte: Option<Pte>)
      requires 1 <= level <= 3
      ensures var at := table + Vpn(va, level) * 8;
              pte == if at < TWO_TO_THE_64 && Bus.Load(bus.State(), at, 8).Some?
                     then Some(DecodePte(FromBytes(Bus.Load(bus.State(), at, 8).value))) else None
    {
      var at := table + Vpn(va, level) * 8;
      if at >= TWO_TO_THE_64 {
        return None;
      }
      var bytes := bus.DoLoad(at, 8);
      pte := if bytes.Some? then Some(DecodePte(FromBytes(bytes.value))) else None;
    }

    /** Scans every entry, so that a second match is noticed, and walks the tables on a miss. */
    method GetTlbEntry(c: Context, va: u64) returns (l: Lookup)
      requires Valid() && bus.mainMem as object != tlb
      modifies this, tlb
      ensures Valid() && (State(), l) == GetEntry(old(State()), old(bus.State()), c, va)
    {
      if !Canonical(va) {
        return Aborted;
      }
      var found: nat := TLB_SIZE;
      var i: nat := 0;
      while i < TLB_SIZE
        invariant 0 <= i <= TLB_SIZE && Valid() && State() == old(State())
        invariant found < i || found == TLB_SIZE
        invariant found < TLB_SIZE ==> Matches(tlb[found], c.asid, va)
        invariant forall j :: 0 <= j < i && j != found ==> !Matches(tlb[j], c.asid, va)
      {
        if (tlb[i].asid == c.asid || tlb[i].g) && 1 <= tlb[i].pagesize <= 3 {
          if PageBase(va, tlb[i].pagesize) == tlb[i].vpa {
            if found != TLB_SIZE {
              ScanAt(tlb[..], c.asid, va, 0, found);
              ScanAt(tlb[..], c.asid, va, found + 1, i);
              return Aborted;
            }
            found := i;
          }
        }
        i := i + 1;
      }
      ScanAt(tlb[..], c.asid, va, 0, found);
      if found != TLB_SIZE {
        ScanAt(tlb[..], c.asid, va, found + 1, TLB_SIZE);
        return Hit(tlb[found]);
      }
      if c.mode != 8 {
        return Miss;
      }
      l := WalkAndFill(c, va);
    }

    method WalkAndFill(c: Context, va: u64) returns (l: Lookup)
      requires Valid() && bus.mainMem as object != tlb
      modifies this, tlb
      ensures Valid()
      ensures match Walk(old(bus.State()), c.ppn, va)
              case BadTable => State() == old(State()) && l == Aborted
              case NoLeaf => State() == old(State()) && l == Miss
              case Leaf(pte, pagesize) =>
                State() == Replace(old(State()), Fill(pte, pagesize, c.asid, va)) &&
                l == Hit(Fill(pte, pagesize, c.asid, va))
    {
      var table: nat := c.ppn * 0x1000;
      var level: nat := 3;
      while true
        invariant 1 <= level <= 3 && Valid() && State() == old(State())
        invariant Walk(old(bus.State()), c.ppn, va) == WalkFrom(bus.State(), table, va, level)
        decreases level
      {
        var pte := ReadPte(table, va, level);
        if pte.None? {
          return Aborted;
        }
        if IsValidLeafPte(pte.value) {
          var e := WriteTlb(pte.value, level, c.asid, va);
          return Hit(e);
        }
        if level == 1 || !IsValidDirPte(pte.value) {
          return Miss;
        }
        table := PteTarget(pte.value);
        level := level - 1;
      }
    }

    method SfenceVma(vaddr: u64, asid: nat)
      requires Valid()
      modifies tlb
      ensures State() == Flush(old(State()), vaddr, asid)
    {
      var i := 0;
      while i < TLB_SIZE
        invariant 0 <= i <= TLB_SIZE
        invariant forall j :: 0 <= j < TLB_SIZE ==>
                    tlb[j] == if j < i && Flushed(old(tlb[j]), vaddr, asid)
                              then old(tlb[j]).(pagesize := 0) else old(tlb[j])
      {
        if tlb[i].asid == asid || asid == 0 {
          if vaddr == 0 {
            tlb[i] := tlb[i].(pagesize := 0);
          } else if 1 <= tlb[i].pagesize <= 3 && tlb[i].vpa < TWO_TO_THE_64 {
            if PageBase(tlb[i].vpa, tlb[i].pagesize) == PageBase(vaddr, tlb[i].pagesize) {
              tlb[i] := tlb[i].(pagesize := 0);
            }
          }
        }
        i := i + 1;
      }
    }

    /** One access: the translation, then the access on the bus. */
    method DoAccess(c: Context, a: Access, va: u64) returns (reply: Reply)
      requires Valid() && bus.mainMem as object != tlb
      modifies this, tlb, bus, bus.mainMem
      ensures Valid() && (State(), bus.State(), reply) == CachedAccess(old(State()), old(bus.State()), c, a, va)
    {
      hide GetEntry, Sv39.Perform, Denied, Bare, CrossesPage, PageOffset, Wrap64;
      if Bare(c, a) {
        reply := Access(c, a, va, false);
      } else if CrossesPage(va, Length(a)) {
        reply := Faulted(Misaligned);
      } else {
        var l := GetTlbEntry(c, va);
        match l
        case Aborted => reply := Stopped;
        case Miss => reply := Faulted(PageFault);
        case Hit(e) =>
          var denied := Denied(c, a, e);
          if denied.Some? {
            reply := Faulted(denied.value);
          } else {
            reply := Access(c, a, Wrap64(e.ppa + PageOffset(va, e.pagesize)), true);
          }
      }
    }

    method Access(c: Context, a: Access, pa: u64, translated: bool) returns (reply: Reply)
      modifies bus, bus.mainMem
      ensures (bus.State(), reply) == Perform(old(bus.State()), c, a, pa, translated)
    {
      match a
      case Read(len) => reply := LoadFrom(pa, len);
      case Fetch(len) => reply := LoadFrom(pa, len);
      case LoadReserved(len) =>
        bus.DoReserve(pa, len, c.hart);
        reply := LoadFrom(pa, len);
      case Write(bytes) =>
        var ok := bus.DoStore(pa, bytes);
        reply := if ok then Stored else Faulted(if translated then PageFault else AccessFault);
      case StoreConditional(bytes) =>
        var held := bus.DoCheck(pa, |bytes|, c.hart);
        if !held {
          return Conditional(true);
        }
        var ok := bus.DoStore(pa, bytes);
        reply := if ok then Conditional(false) else Faulted(if translated then PageFault else AccessFault);
      case Amo(len, op, src) =>
        var data := bus.DoLoad(pa, len);
        if data.None? {
          return Faulted(AccessFault);
        }
        var prior := AmoOld(len, data.value);
        var ok := bus.DoStore(pa, ToBytes(AmoResult(op, src, prior), len));
        reply := if ok then Prior(prior) else Faulted(AccessFault);
    }

    method LoadFrom(pa: u64, len: nat) returns (reply: Reply)
      ensures reply == LoadReply(bus.State(), pa, len)
    {
      var data := bus.DoLoad(pa, len);
      reply := if data.Some? then Data(data.value) else Faulted(AccessFault);
    }
  }

  /** The scan stops at the first match. */
  lemma {:induction false} ScanAt(entries: seq<Entry>, asid: nat, va: u64, i: nat, k: nat)
    requires i <= k <= |entries|
    requires forall j :: i <= j < k ==> !Matches(entries[j], asid, va)
    requires k < |entries| ==> Matches(entries[k], asid, va)
    ensures Scan(entries, asid, va, i) == k
    decreases k - i
  {
    if i < k {
      ScanAt(entries, asid, va, i + 1, k);
    }
  }
}
