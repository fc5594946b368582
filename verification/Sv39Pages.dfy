/** What the page tables say about neighbouring addresses: pages of the three sizes nest. */
module Sv39Pages {
  import opened Words
  import opened Bus
  import opened Sv39

  /** Dividing in two steps: a larger page is made of 512 smaller ones. */
  lemma DivisionNests(x: u64)
    ensures x / 0x20_0000 == (x / 0x1000) / 0x200
    ensures x / 0x4000_0000 == (x / 0x20_0000) / 0x200
  {
  }

  lemma SamePageIndex(va: u64, vb: u64, pagesize: nat)
    requires 1 <= pagesize <= 3 && PageBase(va, pagesize) == PageBase(vb, pagesize)
    ensures pagesize == 1 ==> va / 0x1000 == vb / 0x1000
    ensures pagesize <= 2 ==> va / 0x20_0000 == vb / 0x20_0000
    ensures va / 0x4000_0000 == vb / 0x4000_0000
  {
    DivisionNests(va);
    DivisionNests(vb);
  }

  lemma SamePageVpns(va: u64, vb: u64, pagesize: nat)
    requires 1 <= pagesize <= 3 && PageBase(va, pagesize) == PageBase(vb, pagesize)
    ensures forall level :: pagesize <= level <= 3 ==> Vpn(va, level) == Vpn(vb, level)
    ensures forall larger :: pagesize <= larger <= 3 ==> PageBase(va, larger) == PageBase(vb, larger)
  {
    SamePageIndex(va, vb, pagesize);
  }

  /** A leaf translates its whole page: the walk of any address in it ends at the same leaf. */
  lemma {:induction false} WalkFromSamePage(b: BusState, table: nat, va: u64, vb: u64, level: nat)
    requires 1 <= level <= 3
    requires var w := WalkFrom(b, table, va, level);
             w.Leaf? && PageBase(va, w.pagesize) == PageBase(vb, w.pagesize)
    ensures WalkFrom(b, table, vb, level) == WalkFrom(b, table, va, level)
    decreases level
  {
    hide Vpn, PageBase, DecodePte, FromBytes, PteTarget, IsValidLeafPte, IsValidDirPte, Load;
    var w := WalkFrom(b, table, va, level);
    LeafLevel(b, table, va, level);
    SamePageVpns(va, vb, w.pagesize);
    var pte := DecodePte(FromBytes(Load(b, table + Vpn(va, level) * 8, 8).value));
    if !IsValidLeafPte(pte) {
      WalkFromSamePage(b, PteTarget(pte), va, vb, level - 1);
    }
  }

  lemma {:induction false} LeafLevel(b: BusState, table: nat, va: u64, level: nat)
    requires 1 <= level <= 3
    ensures var w := WalkFrom(b, table, va, level);
            w.Leaf? ==> 1 <= w.pagesize <= level && IsValidLeafPte(w.pte)
    decreases level
  {
    var at := table + Vpn(va, level) * 8;
    if at < TWO_TO_THE_64 && Load(b, at, 8).Some? {
      var pte := DecodePte(FromBytes(Load(b, at, 8).value));
      if !IsValidLeafPte(pte) && level > 1 && IsValidDirPte(pte) {
        LeafLevel(b, PteTarget(pte), va, level - 1);
      }
    }
  }

  lemma WalkSamePage(b: BusState, root: nat, va: u64, vb: u64)
    requires var w := Walk(b, root, va);
             w.Leaf? && PageBase(va, w.pagesize) == PageBase(vb, w.pagesize)
    ensures Walk(b, root, vb) == Walk(b, root, va)
    ensures var w := Walk(b, root, va); 1 <= w.pagesize <= 3 && IsValidLeafPte(w.pte)
  {
    LeafLevel(b, root * 0x1000, va, 3);
    WalkFromSamePage(b, root * 0x1000, va, vb, 3);
  }
}
