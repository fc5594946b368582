/**
 * Whole runs of a hart's memory accesses, context switches and fences, on the machine with
 * the translation cache and on the machine that always walks the tables.
 */
module Sv39Runs {
  import opened Words
  import opened Bus
  import opened Sv39
  import opened Sv39Coherence
  import Sv39Pages

  datatype Op =
    | Do(access: Access, va: u64)
    | Fence(vaddr: u64, asid: nat)
    | SwitchTo(ctx: Context)               // satp, mstatus or the privilege mode is written
    | Outside(other: Context, access: Access, pa: u64)  // another hart or device accesses the bus

  datatype Cached = Cached(tlb: Tlb, bus: BusState, ctx: Context)
  datatype Plain = Plain(bus: BusState, ctx: Context)

  function Joined(low: Reply, high: Reply): Reply {
    if low.Data? && high.Data? then Data(low.value + high.value) else high
  }

  function CachedDo(t: Tlb, b: BusState, c: Context, a: Access, va: u64): (r: (Tlb, BusState, Reply))
    requires t.Valid()
    ensures r.0.Valid()
  {
    if SplitFetch(a, va) then
      var (t1, b1, low) := CachedAccess(t, b, c, Fetch(2), va);
      if !low.Data? then (t1, b1, low) else
      var (t2, b2, high) := CachedAccess(t1, b1, c, Fetch(2), Wrap64(va + 2));
      (t2, b2, Joined(low, high))
    else CachedAccess(t, b, c, a, va)
  }

  function PlainDo(b: BusState, c: Context, a: Access, va: u64): (BusState, Reply) {
    if SplitFetch(a, va) then
      var (b1, low) := FreshAccess(b, c, Fetch(2), va);
      if !low.Data? then (b1, low) else
      var (b2, high) := FreshAccess(b1, c, Fetch(2), Wrap64(va + 2));
      (b2, Joined(low, high))
    else FreshAccess(b, c, a, va)
  }

  function CachedStep(s: Cached, op: Op): (r: (Cached, Reply))
    requires s.tlb.Valid()
    ensures r.0.tlb.Valid()
  {
    match op
    case Do(a, va) => var (t, b, reply) := CachedDo(s.tlb, s.bus, s.ctx, a, va); (Cached(t, b, s.ctx), reply)
    case Fence(vaddr, asid) => (s.(tlb := Flush(s.tlb, vaddr, asid)), Stored)
    case SwitchTo(ctx) => (s.(ctx := ctx), Stored)
    case Outside(other, a, pa) => (s.(bus := Perform(s.bus, other, a, pa, false).0), Stored)
  }

  function PlainStep(s: Plain, op: Op): (Plain, Reply) {
    match op
    case Do(a, va) => var (b, reply) := PlainDo(s.bus, s.ctx, a, va); (Plain(b, s.ctx), reply)
    case Fence(vaddr, asid) => (s, Stored)
    case SwitchTo(ctx) => (s.(ctx := ctx), Stored)
    case Outside(other, a, pa) => (s.(bus := Perform(s.bus, other, a, pa, false).0), Stored)
  }

  /** Final state and replies; a failed assertion ends the run. */
  function CachedRun(s: Cached, ops: seq<Op>): (r: (Cached, seq<Reply>))
    requires s.tlb.Valid()
    ensures r.0.tlb.Valid()
    decreases |ops|
  {
    if ops == [] then (s, []) else
    var (s', reply) := CachedStep(s, ops[0]);
    if reply == Stopped then (s', [reply]) else
    var (s'', replies) := CachedRun(s', ops[1..]);
    (s'', [reply] + replies)
  }

  function PlainRun(s: Plain, ops: seq<Op>): (Plain, seq<Reply>)
    decreases |ops|
  {
    if ops == [] then (s, []) else
    var (s', reply) := PlainStep(s, ops[0]);
    if reply == Stopped then (s', [reply]) else
    var (s'', replies) := PlainRun(s', ops[1..]);
    (s'', [reply] + replies)
  }

  // ----- The discipline asked of software, in terms of the machine without a cache

  /** A translated access uses an address for which no fence is owed. */
  predicate AccessOk(filled: Filled, b: BusState, c: Context, a: Access, va: u64) {
    Translated(c, a, va) ==> Usable(filled, b, c, va)
  }

  function AfterAccess(filled: Filled, b: BusState, c: Context, a: Access, va: u64): Filled {
    if Translated(c, a, va) then AfterLookup(filled, b, c, va) else filled
  }

  /** Does a fetch in two halves come to the second one? */
  predicate SecondHalf(b: BusState, c: Context, va: u64) {
    FreshAccess(b, c, Fetch(2), va).1.Data?
  }

  predicate DoOk(filled: Filled, b: BusState, c: Context, a: Access, va: u64) {
    if SplitFetch(a, va) then
      && AccessOk(filled, b, c, Fetch(2), va)
      && (SecondHalf(b, c, va) ==>
            AccessOk(AfterAccess(filled, b, c, Fetch(2), va), b, c, Fetch(2), Wrap64(va + 2)))
    else AccessOk(filled, b, c, a, va)
  }

  function AfterDo(filled: Filled, b: BusState, c: Context, a: Access, va: u64): Filled {
    if SplitFetch(a, va) then
      var half := AfterAccess(filled, b, c, Fetch(2), va);
      if SecondHalf(b, c, va) then AfterAccess(half, b, c, Fetch(2), Wrap64(va + 2)) else half
    else AfterAccess(filled, b, c, a, va)
  }

  predicate StepOk(s: Plain, op: Op, filled: Filled) {
    op.Do? ==> DoOk(filled, s.bus, s.ctx, op.access, op.va)
  }

  /** An access adds what its walk finds, a fence takes away, and nothing else matters. */
  function AfterStep(s: Plain, op: Op, filled: Filled): Filled {
    match op
    case Do(a, va) => AfterDo(filled, s.bus, s.ctx, a, va)
    case Fence(vaddr, asid) => AfterFence(filled, vaddr, asid)
    case _ => filled
  }

  predicate Disciplined(s: Plain, ops: seq<Op>, filled: Filled)
    decreases |ops|
  {
    ops == [] ||
    (StepOk(s, ops[0], filled) && Disciplined(PlainStep(s, ops[0]).0, ops[1..], AfterStep(s, ops[0], filled)))
  }

  // ----- Refinement

  /** The asid tag of an entry plays no part in what the access does. */
  lemma FinishIgnoresOwner(b: BusState, c: Context, a: Access, va: u64, l: Lookup, f: Lookup)
    requires SameAnswer(l, f)
    ensures Finish(b, c, a, va, l) == Finish(b, c, a, va, f)
  {
    if f.Hit? {
      assert l.entry.(asid := 0) == f.entry.(asid := 0);
      assert Denied(c, a, l.entry) == Denied(c, a, f.entry);
    }
  }

  lemma AccessRefines(t: Tlb, b: BusState, c: Context, a: Access, va: u64, filled: Filled)
    requires Inv(t, filled) && AccessOk(filled, b, c, a, va)
    ensures var r := CachedAccess(t, b, c, a, va);
            && (r.1, r.2) == FreshAccess(b, c, a, va)
            && Inv(r.0, AfterAccess(filled, b, c, a, va))
  {
    hide OnlyFilled, Distinct, GetEntry, FreshEntry, AfterLookup, Usable, Finish, Bare;
    if Translated(c, a, va) {
      LookupIsFresh(t, b, c, va, filled);
      LookupKeepsInv(t, b, c, va, filled);
      FinishIgnoresOwner(b, c, a, va, GetEntry(t, b, c, va).1, FreshEntry(b, c, va));
    }
  }

  /** Fetches leave the bus alone. */
  lemma FetchKeepsBus(b: BusState, c: Context, len: nat, va: u64)
    ensures FreshAccess(b, c, Fetch(len), va).0 == b
  {
  }

  lemma DoRefines(t: Tlb, b: BusState, c: Context, a: Access, va: u64, filled: Filled)
    requires Inv(t, filled) && DoOk(filled, b, c, a, va)
    ensures var r := CachedDo(t, b, c, a, va);
            && (r.1, r.2) == PlainDo(b, c, a, va)
            && Inv(r.0, AfterDo(filled, b, c, a, va))
  {
    hide OnlyFilled, Distinct, CachedAccess, FreshAccess, AccessOk, AfterAccess;
    if SplitFetch(a, va) {
      AccessRefines(t, b, c, Fetch(2), va, filled);
      FetchKeepsBus(b, c, 2, va);
      if SecondHalf(b, c, va) {
        var half := AfterAccess(filled, b, c, Fetch(2), va);
        AccessRefines(CachedAccess(t, b, c, Fetch(2), va).0, b, c, Fetch(2), Wrap64(va + 2), half);
      }
    } else {
      AccessRefines(t, b, c, a, va, filled);
    }
  }

  lemma StepRefines(s: Cached, op: Op, filled: Filled)
    requires Inv(s.tlb, filled) && StepOk(Plain(s.bus, s.ctx), op, filled)
    ensures var p := Plain(s.bus, s.ctx);
            var (s', reply) := CachedStep(s, op);
            && (Plain(s'.bus, s'.ctx), reply) == PlainStep(p, op)
            && Inv(s'.tlb, AfterStep(p, op, filled))
  {
    hide OnlyFilled, Distinct, CachedDo, PlainDo, DoOk, AfterDo, Flush, AfterFence;
    match op
    case Do(a, va) => DoRefines(s.tlb, s.bus, s.ctx, a, va, filled);
    case Fence(vaddr, asid) => FenceKeepsInv(s.tlb, filled, vaddr, asid);
    case _ =>
  }

  /**
   * The main theorem: replies, memory, reservation and context agree step by step, so no
   * assertion fails that the tables themselves would not cause to fail, whatever was cached,
   * evicted, or filled for another address space, and whichever tables satp names.
   */
  lemma {:induction false} Transparency(s: Cached, ops: seq<Op>, filled: Filled)
    requires Inv(s.tlb, filled) && Disciplined(Plain(s.bus, s.ctx), ops, filled)
    ensures var (s', replies) := CachedRun(s, ops);
            (Plain(s'.bus, s'.ctx), replies) == PlainRun(Plain(s.bus, s.ctx), ops)
    decreases |ops|
  {
    hide OnlyFilled, Distinct, StepOk, CachedStep, PlainStep, AfterStep;
    if ops != [] {
      var p := Plain(s.bus, s.ctx);
      StepRefines(s, ops[0], filled);
      Transparency(CachedStep(s, ops[0]).0, ops[1..], AfterStep(p, ops[0], filled));
    }
  }

  lemma TransparencyFromReset(s: Cached, ops: seq<Op>)
    requires s.tlb.Valid() && forall e :: e in s.tlb.entries ==> e.pagesize == 0
    requires Disciplined(Plain(s.bus, s.ctx), ops, {})
    ensures var (s', replies) := CachedRun(s, ops);
            (Plain(s'.bus, s'.ctx), replies) == PlainRun(Plain(s.bus, s.ctx), ops)
  {
    EmptyCache(s.tlb);
    Transparency(s, ops, {});
  }

  // ----- Consequences

  function AfterRun(s: Plain, ops: seq<Op>, filled: Filled): Filled
    decreases |ops|
  {
    if ops == [] then filled
    else AfterRun(PlainStep(s, ops[0]).0, ops[1..], AfterStep(s, ops[0], filled))
  }

  /** The invariant after any run that no assertion ended. */
  lemma {:induction false} RunKeepsInv(s: Cached, ops: seq<Op>, filled: Filled)
    requires Inv(s.tlb, filled)
    requires Disciplined(Plain(s.bus, s.ctx), ops, filled)
    requires Stopped !in PlainRun(Plain(s.bus, s.ctx), ops).1
    ensures Inv(CachedRun(s, ops).0.tlb, AfterRun(Plain(s.bus, s.ctx), ops, filled))
    decreases |ops|
  {
    hide OnlyFilled, Distinct, StepOk, CachedStep, PlainStep, AfterStep;
    if ops != [] {
      var p := Plain(s.bus, s.ctx);
      StepRefines(s, ops[0], filled);
      var rest := PlainRun(PlainStep(p, ops[0]).0, ops[1..]).1;
      assert PlainStep(p, ops[0]).1 != Stopped;
      assert PlainRun(p, ops).1 == [PlainStep(p, ops[0]).1] + rest;
      assert forall r :: r in rest ==> r in PlainRun(p, ops).1;
      RunKeepsInv(CachedStep(s, ops[0]).0, ops[1..], AfterStep(p, ops[0], filled));
    }
  }

  /** All translations used and not fenced since that answer for the address are one and the same. */
  predicate OneTranslation(filled: Filled, asid: nat, va: u64) {
    forall e, f :: e in filled && f in filled && Matches(e, asid, va) && Matches(f, asid, va) ==>
      Translation(e) == Translation(f)
  }

  /** No two entries answer for one address of one address space, unless two translations of it were used. */
  lemma NoDuplicateHits(s: Cached, ops: seq<Op>, i: nat, j: nat, asid: nat, va: u64)
    requires s.tlb.Valid() && forall e :: e in s.tlb.entries ==> e.pagesize == 0
    requires Disciplined(Plain(s.bus, s.ctx), ops, {})
    requires Stopped !in PlainRun(Plain(s.bus, s.ctx), ops).1
    requires i < j < TLB_SIZE && OneTranslation(AfterRun(Plain(s.bus, s.ctx), ops, {}), asid, va)
    ensures var entries := CachedRun(s, ops).0.tlb.entries;
            !(Matches(entries[i], asid, va) && Matches(entries[j], asid, va))
  {
    hide Disciplined, PlainRun, CachedRun, AfterRun, PageBase;
    EmptyCache(s.tlb);
    RunKeepsInv(s, ops, {});
  }

  /** Where an access may be made, that is so. */
  lemma UsableIsOne(filled: Filled, b: BusState, c: Context, va: u64)
    requires Canonical(va) && Usable(filled, b, c, va)
    ensures OneTranslation(filled, c.asid, va)
  {
    hide PageBase, Walk;
  }

  /** A leaf that is not readable is executable, so mxr never admits a load. */
  lemma MxrNeverAdmits(b: BusState, c: Context, root: nat, va: u64, asid: nat)
    requires Walk(b, root, va).Leaf?
    ensures var w := Walk(b, root, va);
            var e := Fill(w.pte, w.pagesize, asid, va);
            && DeniedRead(c, e) == DeniedRead(c.(mxr := !c.mxr), e)
            && (!e.r ==> DeniedRead(c, e) == Some(PageFault))
  {
    Sv39Pages.LeafLevel(b, root * 0x1000, va, 3);
  }
}
