/**
 * Page tables and their fences as software sees them: address spaces with their tables, leaves
 * that change, and the fences that make all of them usable again.
 */
module Sv39Tables {
  import opened Words
  import opened Bus
  import opened Sv39
  import opened Sv39Pages
  import opened Sv39Coherence
  import opened Sv39Runs

  /** Root table of each address space in use. */
  type Roots = map<nat, nat>

  /** satp names the tables of an address space whenever paging is on. */
  predicate ContextOk(c: Context, roots: Roots) {
    c.mode == 0 || (c.mode == 8 && c.asid in roots && c.ppn == roots[c.asid])
  }

  /** A global leaf translates its page the same way in every address space. */
  ghost predicate GlobalsShared(b: BusState, roots: Roots) {
    forall asid, other, va: u64 ::
      asid in roots && other in roots &&
      Walk(b, roots[asid], va).Leaf? && Walk(b, roots[asid], va).pte.g
      ==> Walk(b, roots[other], va) == Walk(b, roots[asid], va)
  }

  /** No fence is owed: what was used agrees with the tables at every address and in every space. */
  ghost predicate UpToDate(filled: Filled, b: BusState, roots: Roots) {
    forall e, asid, va: u64 :: e in filled && asid in roots && Matches(e, asid, va) ==>
      Agrees(e, Walk(b, roots[asid], va), va)
  }

  // ----- Tables that do not change

  /** Where the tables are as they were when everything was up to date, the address may be used. */
  lemma UnchangedIsUsable(filled: Filled, b: BusState, roots: Roots, b': BusState, c: Context, va: u64)
    requires UpToDate(filled, b, roots) && c.mode == 8 && c.asid in roots
    requires Walk(b', c.ppn, va) == Walk(b, roots[c.asid], va)
    ensures Usable(filled, b', c, va)
  {
    hide Walk, Agrees, Matches;
  }

  lemma UpToDateIsOk(filled: Filled, b: BusState, roots: Roots, c: Context, a: Access, va: u64)
    requires UpToDate(filled, b, roots) && ContextOk(c, roots)
    ensures AccessOk(filled, b, c, a, va)
  {
    hide Walk, Agrees, Matches, CrossesPage, Usable;
    if Translated(c, a, va) {
      UnchangedIsUsable(filled, b, roots, b, c, va);
    }
  }

  /** A leaf just found agrees with the tables in its whole page, and if global, in every address space. */
  lemma LookupKeepsUpToDate(filled: Filled, b: BusState, roots: Roots, c: Context, va: u64)
    requires UpToDate(filled, b, roots) && GlobalsShared(b, roots) && ContextOk(c, roots)
    ensures UpToDate(AfterLookup(filled, b, c, va), b, roots)
  {
    hide WalkFrom, PageBase, IsValidLeafPte;
    var f := FreshEntry(b, c, va);
    if f.Hit? {
      forall asid, vb: u64 | asid in roots && Matches(f.entry, asid, vb)
        ensures Agrees(f.entry, Walk(b, roots[asid], vb), vb)
      {
        WalkSamePage(b, c.ppn, va, vb);
        assert asid == c.asid || Walk(b, roots[asid], vb) == Walk(b, roots[c.asid], vb);
      }
    }
  }

  lemma AccessKeepsUpToDate(filled: Filled, b: BusState, roots: Roots, c: Context, a: Access, va: u64)
    requires UpToDate(filled, b, roots) && GlobalsShared(b, roots) && ContextOk(c, roots)
    ensures UpToDate(AfterAccess(filled, b, c, a, va), b, roots)
  {
    hide UpToDate, GlobalsShared, AfterLookup, Translated;
    LookupKeepsUpToDate(filled, b, roots, c, va);
  }

  lemma DoWhenUpToDate(filled: Filled, b: BusState, roots: Roots, c: Context, a: Access, va: u64)
    requires UpToDate(filled, b, roots) && GlobalsShared(b, roots) && ContextOk(c, roots)
    ensures DoOk(filled, b, c, a, va) && UpToDate(AfterDo(filled, b, c, a, va), b, roots)
  {
    hide UpToDate, GlobalsShared, AfterAccess, AccessOk, FreshAccess, ContextOk;
    UpToDateIsOk(filled, b, roots, c, a, va);
    AccessKeepsUpToDate(filled, b, roots, c, a, va);
    if SplitFetch(a, va) {
      UpToDateIsOk(filled, b, roots, c, Fetch(2), va);
      AccessKeepsUpToDate(filled, b, roots, c, Fetch(2), va);
      var half := AfterAccess(filled, b, c, Fetch(2), va);
      UpToDateIsOk(half, b, roots, c, Fetch(2), Wrap64(va + 2));
      AccessKeepsUpToDate(half, b, roots, c, Fetch(2), Wrap64(va + 2));
    }
  }

  ghost predicate SameTables(b: BusState, b': BusState, roots: Roots) {
    forall asid, va: u64 :: asid in roots ==> Walk(b', roots[asid], va) == Walk(b, roots[asid], va)
  }

  /** Every address space keeps its tables during the run, and these share their global leaves. */
  ghost predicate TablesKept(s: Plain, ops: seq<Op>, roots: Roots)
    decreases |ops|
  {
    && ContextOk(s.ctx, roots) && GlobalsShared(s.bus, roots)
    && (ops == [] ||
        (var s' := PlainStep(s, ops[0]).0;
         SameTables(s.bus, s'.bus, roots) && TablesKept(s', ops[1..], roots)))
  }

  lemma SameTablesUpToDate(filled: Filled, b: BusState, b': BusState, roots: Roots)
    requires UpToDate(filled, b, roots) && SameTables(b, b', roots)
    ensures UpToDate(filled, b', roots)
  {
    hide Walk, Agrees, Matches;
  }

  lemma FenceKeepsUpToDate(filled: Filled, b: BusState, roots: Roots, vaddr: u64, asid: nat)
    requires UpToDate(filled, b, roots)
    ensures UpToDate(AfterFence(filled, vaddr, asid), b, roots)
  {
    hide Walk, Agrees, Matches;
  }

  lemma StepWhenUpToDate(s: Plain, op: Op, roots: Roots, filled: Filled)
    requires UpToDate(filled, s.bus, roots) && ContextOk(s.ctx, roots) && GlobalsShared(s.bus, roots)
    requires SameTables(s.bus, PlainStep(s, op).0.bus, roots)
    ensures StepOk(s, op, filled) && UpToDate(AfterStep(s, op, filled), PlainStep(s, op).0.bus, roots)
  {
    hide UpToDate, GlobalsShared, SameTables, ContextOk, DoOk, AfterDo, AfterFence, PlainStep;
    var s' := PlainStep(s, op).0;
    match op
    case Do(a, va) =>
      DoWhenUpToDate(filled, s.bus, roots, s.ctx, a, va);
      SameTablesUpToDate(AfterDo(filled, s.bus, s.ctx, a, va), s.bus, s'.bus, roots);
    case Fence(vaddr, asid) =>
      FenceKeepsUpToDate(filled, s.bus, roots, vaddr, asid);
      SameTablesUpToDate(AfterFence(filled, vaddr, asid), s.bus, s'.bus, roots);
    case _ => SameTablesUpToDate(filled, s.bus, s'.bus, roots);
  }

  lemma {:induction false} KeptIsDisciplined(s: Plain, ops: seq<Op>, roots: Roots, filled: Filled)
    requires UpToDate(filled, s.bus, roots) && TablesKept(s, ops, roots)
    ensures Disciplined(s, ops, filled)
    ensures UpToDate(AfterRun(s, ops, filled), AfterAll(s, ops).bus, roots)
    decreases |ops|
  {
    hide UpToDate, GlobalsShared, SameTables, ContextOk, StepOk, AfterStep, PlainStep;
    if ops != [] {
      StepWhenUpToDate(s, ops[0], roots, filled);
      KeptIsDisciplined(PlainStep(s, ops[0]).0, ops[1..], roots, AfterStep(s, ops[0], filled));
    }
  }

  /** The state after all steps, whatever they reply. */
  function AfterAll(s: Plain, ops: seq<Op>): Plain
    decreases |ops|
  {
    if ops == [] then s else AfterAll(PlainStep(s, ops[0]).0, ops[1..])
  }

  /**
   * With tables that are kept, no fence is ever needed: from an empty cache every run of accesses
   * and context switches between address spaces is that of the machine that walks.
   */
  lemma KeptTablesTransparent(s: Cached, ops: seq<Op>, roots: Roots)
    requires s.tlb.Valid() && forall e :: e in s.tlb.entries ==> e.pagesize == 0
    requires TablesKept(Plain(s.bus, s.ctx), ops, roots)
    ensures var (s', replies) := CachedRun(s, ops);
            (Plain(s'.bus, s'.ctx), replies) == PlainRun(Plain(s.bus, s.ctx), ops)
  {
    hide TablesKept, Disciplined, CachedRun, PlainRun, AfterRun;
    KeptIsDisciplined(Plain(s.bus, s.ctx), ops, roots, {});
    TransparencyFromReset(s, ops);
  }

  lemma UpToDateIsOne(filled: Filled, b: BusState, roots: Roots, asid: nat, va: u64)
    requires UpToDate(filled, b, roots) && asid in roots
    ensures OneTranslation(filled, asid, va)
  {
    hide PageBase, Walk;
  }

  /** And then no two entries ever answer for one address, in any of the address spaces. */
  lemma KeptTablesNoDuplicates(s: Cached, ops: seq<Op>, roots: Roots, i: nat, j: nat, asid: nat, va: u64)
    requires s.tlb.Valid() && forall e :: e in s.tlb.entries ==> e.pagesize == 0
    requires TablesKept(Plain(s.bus, s.ctx), ops, roots)
    requires Stopped !in PlainRun(Plain(s.bus, s.ctx), ops).1
    requires i < j < TLB_SIZE && asid in roots
    ensures var entries := CachedRun(s, ops).0.tlb.entries;
            !(Matches(entries[i], asid, va) && Matches(entries[j], asid, va))
  {
    hide TablesKept, Disciplined, CachedRun, PlainRun, AfterRun, AfterAll, UpToDate, OneTranslation, Matches;
    var p := Plain(s.bus, s.ctx);
    NothingOwed(s.bus, roots);
    KeptIsDisciplined(p, ops, roots, {});
    UpToDateIsOne(AfterRun(p, ops, {}), AfterAll(p, ops).bus, roots, asid, va);
    NoDuplicateHits(s, ops, i, j, asid, va);
  }

  lemma NothingOwed(b: BusState, roots: Roots)
    ensures UpToDate({}, b, roots)
  {
  }

  // ----- Tables that change

  /** A fence instruction's operands: an address and an address space, either of them zero for all. */
  type Operands = (u64, nat)

  function Fences(operands: seq<Operands>): seq<Op> {
    seq(|operands|, i requires 0 <= i < |operands| => Fence(operands[i].0, operands[i].1))
  }

  predicate FlushedByAny(e: Entry, operands: seq<Operands>) {
    exists i :: 0 <= i < |operands| && Flushed(e, operands[i].0, operands[i].1)
  }

  /** After any fences exactly the translations that none of them is for are left. */
  lemma {:induction false} FencesLeave(s: Plain, operands: seq<Operands>, filled: Filled)
    ensures AfterRun(s, Fences(operands), filled) == set e | e in filled && !FlushedByAny(e, operands)
    decreases |operands|
  {
    hide Flushed;
    if operands != [] {
      assert Fences(operands)[1..] == Fences(operands[1..]);
      FencesLeave(s, operands[1..], AfterFence(filled, operands[0].0, operands[0].1));
      forall e | e in filled
        ensures FlushedByAny(e, operands) <==>
                Flushed(e, operands[0].0, operands[0].1) || FlushedByAny(e, operands[1..])
      {
        assert forall i :: 0 < i < |operands| ==> operands[1..][i - 1] == operands[i];
      }
    }
  }

  /**
   * The fence is for the page of this leaf: of the address space it was found in, or of all of
   * them, as it must be for a global leaf.
   */
  predicate Fenced(f: Operands, w: Walked, asid: nat, va: u64)
    requires w.Leaf?
  {
    && (f.0 == 0 || PageBase(f.0, w.pagesize) == PageBase(va, w.pagesize))
    && (f.1 == 0 || (f.1 == asid && !w.pte.g))
  }

  lemma FencedIsFlushed(e: Entry, f: Operands, w: Walked, asid: nat, va: u64)
    requires Matches(e, asid, va) && Agrees(e, w, va) && Fenced(f, w, asid, va)
    ensures Flushed(e, f.0, f.1)
  {
    SamePage(e, w, va);
    BaseOfBase(va, e.pagesize);
  }

  lemma SamePage(e: Entry, w: Walked, va: u64)
    requires Agrees(e, w, va)
    ensures e.pagesize == w.pagesize && e.vpa == PageBase(va, w.pagesize) && e.g == w.pte.g
  {
    assert e.(asid := 0).pagesize == w.pagesize && e.(asid := 0).vpa == PageBase(va, w.pagesize);
  }

  /**
   * Whatever becomes of memory and of the tables of address spaces, or of the address spaces
   * themselves: a fence for each leaf that is no longer found, by any address in the leaf, brings
   * everything up to date.
   */
  lemma FencingChangedPages(filled: Filled, b: BusState, roots: Roots, s: Plain, roots': Roots,
                            operands: seq<Operands>)
    requires UpToDate(filled, b, roots) && roots'.Keys <= roots.Keys
    requires forall asid, va: u64 ::
               asid in roots' && Walk(b, roots[asid], va).Leaf? &&
               Walk(s.bus, roots'[asid], va) != Walk(b, roots[asid], va)
               ==> exists i :: 0 <= i < |operands| && Fenced(operands[i], Walk(b, roots[asid], va), asid, va)
    ensures UpToDate(AfterRun(s, Fences(operands), filled), s.bus, roots')
  {
    hide AfterRun, Walk, PageBase, Flushed, Fences;
    FencesLeave(s, operands, filled);
    forall e, asid, va: u64 | e in filled && !FlushedByAny(e, operands) && asid in roots' && Matches(e, asid, va)
      ensures Agrees(e, Walk(s.bus, roots'[asid], va), va)
    {
      var w := Walk(b, roots[asid], va);
      assert Agrees(e, w, va);
      if Walk(s.bus, roots'[asid], va) != w {
        var i :| 0 <= i < |operands| && Fenced(operands[i], w, asid, va);
        FencedIsFlushed(e, operands[i], w, asid, va);
      }
    }
  }

  /** Nothing that was used answers for the address any more. */
  predicate Forgotten(filled: Filled, asid: nat, va: u64) {
    forall e :: e in filled ==> !Matches(e, asid, va)
  }

  /**
   * One fence, by address and address space, and no translation of any address in a private leaf
   * is left, whatever the size of the leaf; a global leaf takes a fence for all address spaces.
   */
  lemma OneFencePerLeaf(filled: Filled, b: BusState, roots: Roots, asid: nat, va: u64, vb: u64, f: nat)
    requires UpToDate(filled, b, roots) && asid in roots && Walk(b, roots[asid], va).Leaf?
    requires f == 0 || (f == asid && !Walk(b, roots[asid], va).pte.g)
    requires var size := Walk(b, roots[asid], va).pagesize; PageBase(vb, size) == PageBase(va, size)
    ensures Forgotten(AfterFence(filled, va, f), asid, vb)
  {
    hide WalkFrom, PageBase, Flushed;
    WalkSamePage(b, roots[asid], va, vb);
    forall e | e in filled && Matches(e, asid, vb)
      ensures Flushed(e, va, f)
    {
      FencedIsFlushed(e, (va, f), Walk(b, roots[asid], va), asid, vb);
    }
  }

  /** Then the address may be used with any tables. */
  lemma ForgottenIsUsable(filled: Filled, b: BusState, c: Context, va: u64)
    requires Forgotten(filled, c.asid, va)
    ensures Usable(filled, b, c, va)
  {
  }

  /** Where a leaf can be found: in the space itself, or, if it is global, in another. */
  function Owner(w: Walked, asid: nat, f: nat): nat {
    if w.Leaf? && w.pte.g && f == asid then asid + 1 else asid
  }

  /**
   * And it takes that fence: after any other, there is a cache that holds the translation of a
   * leaf once used, and answers otherwise than the tables that have come in its place.
   */
  lemma OtherFencesDoNot(w: Walked, va: u64, vaddr: u64, f: nat, b: BusState, c: Context)
    requires w.Leaf? && 1 <= w.pagesize <= 3 && Canonical(va) && !Fenced((vaddr, f), w, c.asid, va)
    requires !Agrees(Fill(w.pte, w.pagesize, c.asid, va), Walk(b, c.ppn, va), va)
    ensures var used := {Fill(w.pte, w.pagesize, Owner(w, c.asid, f), va)};
            && !AlwaysFresh(AfterFence(used, vaddr, f), b, c, va)
  {
    hide Walk, PageBase, GetEntry, FreshEntry, Distinct, AlwaysFresh;
    var e := Fill(w.pte, w.pagesize, Owner(w, c.asid, f), va);
    BaseOfBase(va, e.pagesize);
    assert e in AfterFence({e}, vaddr, f) && Matches(e, c.asid, va);
    UsableExactly(AfterFence({e}, vaddr, f), b, c, va);
  }

  /**
   * sfence.vma with both operands zero empties the cache and leaves nothing to fence, for any
   * memory and any tables.
   */
  lemma FullFence(t: Tlb, filled: Filled)
    requires t.Valid()
    ensures forall i, asid, va: u64 :: 0 <= i < TLB_SIZE ==> !Matches(Flush(t, 0, 0).entries[i], asid, va)
    ensures AfterFence(filled, 0, 0) == {} && Inv(Flush(t, 0, 0), {})
  {
    forall i | 0 <= i < TLB_SIZE
      ensures !Live(Flush(t, 0, 0).entries[i])
    {
      FlushedEntry(t, 0, 0, i);
    }
  }

  /** The tables of an address space that are put in the place of others map the global leaves alike. */
  ghost predicate KeepsGlobals(b: BusState, root: nat, root': nat) {
    forall va: u64 :: Walk(b, root, va).Leaf? && Walk(b, root, va).pte.g ==> Walk(b, root', va) == Walk(b, root, va)
  }

  /** sfence.vma for one address space allows it to be given other tables. */
  lemma AddressSpaceFence(filled: Filled, b: BusState, roots: Roots, asid: nat, root: nat)
    requires UpToDate(filled, b, roots) && asid in roots && KeepsGlobals(b, roots[asid], root)
    ensures UpToDate(AfterFence(filled, 0, asid), b, roots[asid := root])
  {
    hide Walk, PageBase;
    forall e, va: u64 | e in filled && e.asid != asid && Matches(e, asid, va)
      ensures Agrees(e, Walk(b, root, va), va)
    {
      SamePage(e, Walk(b, roots[asid], va), va);
    }
  }

  // ----- From the write of satp to the fence

  /** The tables that satp names now map the address as those of its address space did. */
  ghost predicate Alike(b: BusState, c: Context, roots: Roots, va: u64) {
    c.mode == 8 && c.asid in roots && Walk(b, c.ppn, va) == Walk(b, roots[c.asid], va)
  }

  /** So they do the instructions at these addresses. */
  ghost predicate AllAlike(b: BusState, c: Context, roots: Roots, pcs: seq<u64>) {
    forall pc :: pc in pcs ==> Alike(b, c, roots, pc) && Alike(b, c, roots, Wrap64(pc + 2))
  }

  lemma AlikeAccess(filled: Filled, b: BusState, roots: Roots, c: Context, a: Access, va: u64)
    requires UpToDate(filled, b, roots) && GlobalsShared(b, roots) && Alike(b, c, roots, va)
    ensures AccessOk(filled, b, c, a, va) && UpToDate(AfterAccess(filled, b, c, a, va), b, roots)
  {
    hide UpToDate, GlobalsShared, Walk, Usable, Bare, CrossesPage;
    UnchangedIsUsable(filled, b, roots, b, c, va);
    LookupKeepsUpToDate(filled, b, roots, c.(ppn := roots[c.asid]), va);
  }

  lemma AlikeFetch(filled: Filled, b: BusState, roots: Roots, c: Context, pc: u64)
    requires UpToDate(filled, b, roots) && GlobalsShared(b, roots)
    requires Alike(b, c, roots, pc) && Alike(b, c, roots, Wrap64(pc + 2))
    ensures DoOk(filled, b, c, Fetch(4), pc) && UpToDate(AfterDo(filled, b, c, Fetch(4), pc), b, roots)
  {
    hide UpToDate, GlobalsShared, AfterAccess, AccessOk, FreshAccess, Alike;
    AlikeAccess(filled, b, roots, c, Fetch(4), pc);
    AlikeAccess(filled, b, roots, c, Fetch(2), pc);
    AlikeAccess(AfterAccess(filled, b, c, Fetch(2), pc), b, roots, c, Fetch(2), Wrap64(pc + 2));
  }

  function FetchesThenFence(pcs: seq<u64>): seq<Op>
    decreases |pcs|
  {
    if pcs == [] then [Fence(0, 0)] else [Do(Fetch(4), pcs[0])] + FetchesThenFence(pcs[1..])
  }

  lemma FetchSteps(s: Plain, pc: u64)
    ensures PlainStep(s, Do(Fetch(4), pc)).0 == s
  {
    FetchKeepsBus(s.bus, s.ctx, 4, pc);
    FetchKeepsBus(s.bus, s.ctx, 2, pc);
    FetchKeepsBus(s.bus, s.ctx, 2, Wrap64(pc + 2));
  }

  lemma {:induction false} UnfencedFetches(s: Plain, pcs: seq<u64>, roots: Roots, filled: Filled)
    requires UpToDate(filled, s.bus, roots) && GlobalsShared(s.bus, roots)
    requires AllAlike(s.bus, s.ctx, roots, pcs)
    ensures Disciplined(s, FetchesThenFence(pcs), filled) && AfterRun(s, FetchesThenFence(pcs), filled) == {}
    decreases |pcs|
  {
    hide UpToDate, GlobalsShared, Alike, DoOk, AfterDo, PlainDo;
    var ops := FetchesThenFence(pcs);
    if pcs == [] {
      assert ops[1..] == [];
      assert AfterFence(filled, 0, 0) == {};
    } else {
      assert ops[0] == Do(Fetch(4), pcs[0]) && ops[1..] == FetchesThenFence(pcs[1..]);
      assert pcs[0] in pcs && forall pc :: pc in pcs[1..] ==> pc in pcs;
      AlikeFetch(filled, s.bus, roots, s.ctx, pcs[0]);
      FetchSteps(s, pcs[0]);
      UnfencedFetches(s, pcs[1..], roots, AfterStep(s, ops[0], filled));
    }
  }

  /**
   * The context switch of a kernel that gives every process the same address-space number: between
   * the write of satp and the fence it may run code that both tables map alike, whatever else they
   * map, and after the fence nothing is owed.
   */
  lemma SwitchThenFence(s: Plain, ctx: Context, pcs: seq<u64>, roots: Roots, filled: Filled)
    requires UpToDate(filled, s.bus, roots) && GlobalsShared(s.bus, roots)
    requires AllAlike(s.bus, ctx, roots, pcs)
    ensures var ops := [SwitchTo(ctx)] + FetchesThenFence(pcs);
            Disciplined(s, ops, filled) && AfterRun(s, ops, filled) == {}
  {
    hide UpToDate, GlobalsShared, Alike;
    assert ([SwitchTo(ctx)] + FetchesThenFence(pcs))[1..] == FetchesThenFence(pcs);
    UnfencedFetches(s.(ctx := ctx), pcs, roots, filled);
  }
}
