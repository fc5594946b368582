/**
 * What the translation cache holds, and when it cannot be told from a walk of the tables: exactly
 * when no translation that has been used, and not fenced since, disagrees with the tables about
 * the address.
 */
module Sv39Coherence {
  import opened Words
  import opened Bus
  import opened Sv39

  /** The translations found by walks and not fenced since, whether or not the cache still has them. */
  type Filled = set<Entry>

  /** Everything in an entry but the address space it was filled for. */
  function Translation(e: Entry): Entry {
    e.(asid := 0)
  }

  predicate Agrees(e: Entry, w: Walked, va: u64) {
    w.Leaf? && Translation(e) == Fill(w.pte, w.pagesize, 0, va)
  }

  predicate Live(e: Entry) {
    1 <= e.pagesize <= 3
  }

  // ----- Invariant

  predicate OnlyFilled(t: Tlb, filled: Filled) {
    forall i :: 0 <= i < |t.entries| && Live(t.entries[i]) ==> t.entries[i] in filled
  }

  /** Two entries that answer for one address do so with different translations. */
  ghost predicate Distinct(t: Tlb) {
    forall i, j, asid, va: u64 ::
      0 <= i < j < |t.entries| && Matches(t.entries[i], asid, va) && Matches(t.entries[j], asid, va)
      ==> Translation(t.entries[i]) != Translation(t.entries[j])
  }

  /** Nothing is said here about memory: the invariant does not depend on what software does to its tables. */
  ghost predicate Inv(t: Tlb, filled: Filled) {
    t.Valid() && OnlyFilled(t, filled) && Distinct(t)
  }

  lemma EmptyCache(t: Tlb)
    requires t.Valid() && forall e :: e in t.entries ==> e.pagesize == 0
    ensures Inv(t, {})
  {
    forall i | 0 <= i < |t.entries|
      ensures t.entries[i].pagesize == 0
    {
      assert t.entries[i] in t.entries;
    }
  }

  // ----- One lookup

  /** No translation that was used and not fenced since is out of date for this address. */
  predicate Usable(filled: Filled, b: BusState, c: Context, va: u64) {
    Canonical(va) ==>
      forall e :: e in filled && Matches(e, c.asid, va) ==> c.mode == 8 && Agrees(e, Walk(b, c.ppn, va), va)
  }

  /** The lookups give the same answer, but for the address space in which a global page was found. */
  predicate SameAnswer(l: Lookup, f: Lookup) {
    if f.Hit? then l.Hit? && Translation(l.entry) == Translation(f.entry) else l == f
  }

  function AfterLookup(filled: Filled, b: BusState, c: Context, va: u64): Filled {
    match FreshEntry(b, c, va)
    case Hit(e) => filled + {e}
    case _ => filled
  }

  /** The duplicate-hit assertion holds, and the answer is that of a fresh walk. */
  lemma LookupIsFresh(t: Tlb, b: BusState, c: Context, va: u64, filled: Filled)
    requires Inv(t, filled) && Usable(filled, b, c, va)
    ensures SameAnswer(GetEntry(t, b, c, va).1, FreshEntry(b, c, va))
  {
    hide PageBase, Walk;
    if Canonical(va) {
      var i := Scan(t.entries, c.asid, va, 0);
      if i < TLB_SIZE {
        var j := Scan(t.entries, c.asid, va, i + 1);
        assert j == TLB_SIZE;
      }
    }
  }

  /** Filling a missing translation, in the place of an older one, keeps the invariant. */
  lemma LookupKeepsInv(t: Tlb, b: BusState, c: Context, va: u64, filled: Filled)
    requires Inv(t, filled)
    ensures Inv(GetEntry(t, b, c, va).0, AfterLookup(filled, b, c, va))
  {
    hide PageBase, Walk;
    var w := Walk(b, c.ppn, va);
    if Canonical(va) && Scan(t.entries, c.asid, va, 0) == TLB_SIZE && c.mode == 8 && w.Leaf? {
      var e := Fill(w.pte, w.pagesize, c.asid, va);
      forall j, asid, vb: u64 | 0 <= j < TLB_SIZE && Matches(t.entries[j], asid, vb) && Matches(e, asid, vb)
        ensures Translation(t.entries[j]) != Translation(e)
      {
        FillIsDistinct(t.entries[j], e, c.asid, va, asid, vb);
      }
    }
  }

  /** An entry with the same translation as the one just filled would have answered the lookup. */
  lemma FillIsDistinct(f: Entry, e: Entry, asid: nat, va: u64, other: nat, vb: u64)
    requires !Matches(f, asid, va) && e.asid == asid && e.vpa == PageBase(va, e.pagesize)
    requires Matches(f, other, vb) && Matches(e, other, vb)
    ensures Translation(f) != Translation(e)
  {
  }

  // ----- The condition is exact

  const DEAD := Entry(0, 0, 0, 0, false, false, false, false, false, false, false)

  /** A cache that holds one entry. */
  function Alone(e: Entry): Tlb {
    Tlb([e] + seq(TLB_SIZE - 1, _ => DEAD), 0)
  }

  lemma AloneAnswers(e: Entry, filled: Filled, b: BusState, c: Context, va: u64)
    requires e in filled && Matches(e, c.asid, va) && Canonical(va)
    ensures Inv(Alone(e), filled) && GetEntry(Alone(e), b, c, va) == (Alone(e), Hit(e))
  {
    hide PageBase, Walk;
    var t := Alone(e);
    assert t.entries[0] == e && forall i :: 0 < i < TLB_SIZE ==> t.entries[i] == DEAD;
    assert Scan(t.entries, c.asid, va, 0) == 0;
    assert Scan(t.entries, c.asid, va, 1) == TLB_SIZE;
  }

  ghost predicate AlwaysFresh(filled: Filled, b: BusState, c: Context, va: u64) {
    forall t :: Inv(t, filled) ==> SameAnswer(GetEntry(t, b, c, va).1, FreshEntry(b, c, va))
  }

  /**
   * Every cache that these translations may have left answers as a fresh walk does if and only if
   * none of them is out of date for the address.
   */
  lemma UsableExactly(filled: Filled, b: BusState, c: Context, va: u64)
    ensures AlwaysFresh(filled, b, c, va) <==> Usable(filled, b, c, va)
  {
    hide PageBase, Walk, GetEntry, Distinct;
    if Usable(filled, b, c, va) {
      forall t | Inv(t, filled)
        ensures SameAnswer(GetEntry(t, b, c, va).1, FreshEntry(b, c, va))
      {
        LookupIsFresh(t, b, c, va, filled);
      }
    } else {
      var e :| e in filled && Matches(e, c.asid, va) && !(c.mode == 8 && Agrees(e, Walk(b, c.ppn, va), va));
      AloneAnswers(e, filled, b, c, va);
      assert !SameAnswer(GetEntry(Alone(e), b, c, va).1, FreshEntry(b, c, va));
    }
  }

  // ----- Fences

  function AfterFence(filled: Filled, vaddr: u64, asid: nat): Filled {
    set e | e in filled && !Flushed(e, vaddr, asid)
  }

  /** sfence.vma invalidates the entries it is for, and touches no other. */
  lemma FlushedEntry(t: Tlb, vaddr: u64, asid: nat, i: nat)
    requires i < |t.entries|
    ensures var e := Flush(t, vaddr, asid).entries[i];
            if Flushed(t.entries[i], vaddr, asid) then !Live(e) else e == t.entries[i]
  {
  }

  lemma BaseOfBase(va: u64, pagesize: nat)
    ensures PageBase(PageBase(va, pagesize), pagesize) == PageBase(va, pagesize)
  {
  }

  /**
   * After sfence.vma an entry answers for an address exactly if it did before and was not filled
   * for the fenced address space, or does not have the fenced address in its page, of whatever
   * size; a zero operand stands for all.
   */
  lemma FlushRemoves(t: Tlb, vaddr: u64, asid: nat, i: nat, ctx: nat, va: u64)
    requires i < |t.entries|
    ensures var e := t.entries[i];
            Matches(Flush(t, vaddr, asid).entries[i], ctx, va) <==>
              && Matches(e, ctx, va)
              && !((asid == 0 || e.asid == asid) &&
                   (vaddr == 0 || PageBase(vaddr, e.pagesize) == PageBase(va, e.pagesize)))
  {
    FlushedEntry(t, vaddr, asid, i);
    BaseOfBase(va, t.entries[i].pagesize);
  }

  lemma FenceKeepsInv(t: Tlb, filled: Filled, vaddr: u64, asid: nat)
    requires Inv(t, filled)
    ensures Inv(Flush(t, vaddr, asid), AfterFence(filled, vaddr, asid))
  {
    hide PageBase, Flushed;
    var t' := Flush(t, vaddr, asid);
    forall i | 0 <= i < |t'.entries|
      ensures t'.entries[i] == t.entries[i] || !Live(t'.entries[i])
      ensures Live(t'.entries[i]) ==> t'.entries[i] in AfterFence(filled, vaddr, asid)
    {
      FlushedEntry(t, vaddr, asid, i);
    }
  }
}
