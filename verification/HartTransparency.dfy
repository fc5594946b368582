/**
 * The translation cache cannot be seen from inside the hart: whole steps and whole runs of the
 * core, with its traps, its CSR writes and its own fences, are those of a core that walks the
 * page tables at every fetch and every access.
 */
module HartTransparency {
  import opened Words
  import Bus
  import opened Sv39
  import opened Sv39Coherence
  import Sv39Runs
  import opened Privilege
  import opened Decode
  import opened Exec

  function Uncached(m: Machine): Machine {
    m.(tlb := None)
  }

  ghost predicate CacheOk(m: Machine, filled: Filled) {
    WellFormed(m) && m.tlb.Some? && Inv(m.tlb.value, filled)
  }

  // ----- What is asked of software, in terms of the machine without a cache

  /** An access uses no address for which a fence is owed. */
  predicate MayAccess(p: Machine, a: Access, va: u64, filled: Filled) {
    Sv39Runs.DoOk(filled, p.bus, ContextOf(p.core), a, va)
  }

  function AfterAccess(p: Machine, a: Access, va: u64, filled: Filled): Filled {
    Sv39Runs.AfterDo(filled, p.bus, ContextOf(p.core), a, va)
  }

  /** The access an action makes, if it gets that far. */
  function AccessOf(a: Action): Option<(Access, u64)> {
    match a
    case LoadReg(_, va, size, _) => if va % size == 0 then Some((Read(size), va)) else None
    case StoreMem(va, size, value) => if va % size == 0 then Some((Write(ToBytes(value, size)), va)) else None
    case Atomic(_, va, _, access) => Some((access, va))
    case _ => None
  }

  predicate MayPerform(p: Machine, a: Action, filled: Filled) {
    AccessOf(a).Some? ==> MayAccess(p, AccessOf(a).value.0, AccessOf(a).value.1, filled)
  }

  /** Translations used and not fenced after an action: fewer after a fence, more after an access. */
  function AfterAction(p: Machine, a: Action, filled: Filled): Filled {
    if a.FenceVma? && SfencePermitted(p.core) then AfterFence(filled, a.vaddr, a.asid)
    else if AccessOf(a).Some? then AfterAccess(p, AccessOf(a).value.0, AccessOf(a).value.1, filled)
    else filled
  }

  // ----- One access

  lemma MemAgrees(m: Machine, a: Access, va: u64, filled: Filled)
    requires CacheOk(m, filled) && MayAccess(Uncached(m), a, va, filled)
    ensures var (m', reply) := Mem(m, a, va);
            var (p', reply') := Mem(Uncached(m), a, va);
            && reply == reply' && Uncached(m') == p'
            && CacheOk(m', AfterAccess(Uncached(m), a, va, filled))
  {
    hide Inv, Sv39Runs.CachedDo, Sv39Runs.PlainDo, Sv39Runs.DoOk, Sv39Runs.AfterDo, ContextOf;
    Sv39Runs.DoRefines(m.tlb.value, m.bus, ContextOf(m.core), a, va, filled);
  }

  // ----- One action

  /** Both machines do the same, and the cache stays sound. */
  ghost predicate SameOutcome(o: Outcome, p: Outcome, filled: Filled) {
    && Uncached(o.m) == p.m && (o.jumped, o.illegal) == (p.jumped, p.illegal)
    && CacheOk(o.m, filled)
  }

  lemma LoadAgrees(m: Machine, a: Action, filled: Filled)
    requires CacheOk(m, filled) && a.LoadReg? && MayPerform(Uncached(m), a, filled)
    ensures SameOutcome(Exec.Perform(m, a), Exec.Perform(Uncached(m), a),
                        AfterAction(Uncached(m), a, filled))
  {
    hide Mem, Inv, MayAccess, RaiseTrap, Extend, SetGpr;
    if a.va % a.size == 0 {
      MemAgrees(m, Read(a.size), a.va, filled);
    }
  }

  lemma StoreAgrees(m: Machine, a: Action, filled: Filled)
    requires CacheOk(m, filled) && a.StoreMem? && MayPerform(Uncached(m), a, filled)
    ensures SameOutcome(Exec.Perform(m, a), Exec.Perform(Uncached(m), a),
                        AfterAction(Uncached(m), a, filled))
  {
    hide Mem, Inv, MayAccess, RaiseTrap, ToBytes;
    if a.va % a.size == 0 {
      MemAgrees(m, Write(ToBytes(a.value, a.size)), a.va, filled);
    }
  }

  lemma AtomicAgrees(m: Machine, a: Action, filled: Filled)
    requires CacheOk(m, filled) && a.Atomic? && MayPerform(Uncached(m), a, filled)
    ensures SameOutcome(Exec.Perform(m, a), Exec.Perform(Uncached(m), a),
                        AfterAction(Uncached(m), a, filled))
  {
    hide Mem, Inv, MayAccess, RaiseTrap, Extend, SetGpr;
    MemAgrees(m, a.access, a.va, filled);
  }

  lemma FenceAgrees(m: Machine, a: Action, filled: Filled)
    requires CacheOk(m, filled) && a.FenceVma?
    ensures SameOutcome(Exec.Perform(m, a), Exec.Perform(Uncached(m), a),
                        AfterAction(Uncached(m), a, filled))
  {
    hide Inv, Flush, AfterFence, SfencePermitted;
    FenceKeepsInv(m.tlb.value, filled, a.vaddr, a.asid);
  }

  /** The other actions see and change the core only. */
  lemma CoreActionAgrees(m: Machine, a: Action)
    requires WellFormed(m) && AccessOf(a).None? && !a.FenceVma? && !a.LoadReg? && !a.StoreMem?
    ensures var o, p := Exec.Perform(m, a), Exec.Perform(Uncached(m), a);
            && Uncached(o.m) == p.m && (o.jumped, o.illegal) == (p.jumped, p.illegal)
            && (o.m.tlb, o.m.bus) == (m.tlb, m.bus)
  {
    hide RaiseTrap, SetGpr, Mret, Sret, CsrRead, CsrWrite, CsrPermitted, CsrValue;
  }

  lemma ActionAgrees(m: Machine, a: Action, filled: Filled)
    requires CacheOk(m, filled) && MayPerform(Uncached(m), a, filled)
    ensures SameOutcome(Exec.Perform(m, a), Exec.Perform(Uncached(m), a),
                        AfterAction(Uncached(m), a, filled))
  {
    hide Inv, Exec.Perform, AfterFence;
    if a.LoadReg? {
      LoadAgrees(m, a, filled);
    } else if a.StoreMem? {
      StoreAgrees(m, a, filled);
    } else if a.Atomic? {
      AtomicAgrees(m, a, filled);
    } else if a.FenceVma? {
      FenceAgrees(m, a, filled);
    } else {
      CoreActionAgrees(m, a);
    }
  }

  // ----- One step

  lemma FetchKeepsMemory(p: Machine, va: u64)
    requires WellFormed(p) && p.tlb.None?
    ensures Mem(p, Fetch(4), va).0 == p
  {
    hide ContextOf;
    Sv39Runs.FetchKeepsBus(p.bus, ContextOf(p.core), 2, va);
    Sv39Runs.FetchKeepsBus(p.bus, ContextOf(p.core), 2, Wrap64(va + 2));
    Sv39Runs.FetchKeepsBus(p.bus, ContextOf(p.core), 4, va);
  }

  function AfterFetch(p: Machine, filled: Filled): Filled {
    if p.core.pc % 2 != 0 then filled else AfterAccess(p, Fetch(4), p.core.pc, filled)
  }

  predicate MayRun(p: Machine, filled: Filled)
    requires WellFormed(p)
  {
    p.core.pc % 2 == 0 ==>
      && MayAccess(p, Fetch(4), p.core.pc, filled)
      && (InstructionOf(p).Some? ==> MayPerform(p, InstructionOf(p).value, AfterFetch(p, filled)))
  }

  function AfterInstruction(p: Machine, filled: Filled): Filled
    requires WellFormed(p)
  {
    var fetched := AfterFetch(p, filled);
    if InstructionOf(p).Some? then AfterAction(p, InstructionOf(p).value, fetched) else fetched
  }

  lemma CommitAgrees(o: Outcome, q: Outcome, w: bv32, length: nat, filled: Filled)
    requires SameOutcome(o, q, filled)
    ensures Uncached(Commit(o, w, length)) == Commit(q, w, length) && CacheOk(Commit(o, w, length), filled)
  {
    hide Inv, RaiseTrap, Word;
  }

  lemma FetchAgrees(m: Machine, filled: Filled)
    requires CacheOk(m, filled) && MayAccess(Uncached(m), Fetch(4), m.core.pc, filled)
    ensures var (m', reply) := Fetched(m);
            && Fetched(Uncached(m)) == (Uncached(m), reply) && Uncached(m') == Uncached(m)
            && (m.core.pc % 2 == 0 ==> CacheOk(m', AfterFetch(Uncached(m), filled)))
  {
    hide Mem, Inv, MayAccess;
    MemAgrees(m, Fetch(4), m.core.pc, filled);
    FetchKeepsMemory(Uncached(m), m.core.pc);
  }

  lemma InstructionAgrees(m: Machine, filled: Filled)
    requires CacheOk(m, filled) && MayRun(Uncached(m), filled)
    ensures Uncached(Instruction(m)) == Instruction(Uncached(m))
    ensures CacheOk(Instruction(m), AfterInstruction(Uncached(m), filled))
  {
    hide Inv, RaiseTrap, Mem, MayAccess, MayPerform, Commit, Exec.Perform, AfterAction, FetchedWord, DecodeC, Decode32,
      IsCompressed;
    var p := Uncached(m);
    if m.core.pc % 2 != 0 {
      CommitAgrees(Next(Raise(m, 0, m.core.pc)), Next(Raise(p, 0, p.core.pc)), 0, 4, filled);
    } else {
      FetchAgrees(m, filled);
      var (m', reply) := Fetched(m);
      match reply
      case Data(bytes) =>
        var w := FetchedWord(bytes);
        var a := Decoded(p.core, w);
        var length := if IsCompressed(w) then 2 else 4;
        var fetched := AfterFetch(p, filled);
        ActionAgrees(m', a, fetched);
        CommitAgrees(Exec.Perform(m', a), Exec.Perform(p, a), w, length, AfterAction(p, a, fetched));
      case Faulted(f) =>
        if FetchCode(f) != 0 {
          var o, q := Next(Raise(m', FetchCode(f), m.core.pc)), Next(Raise(p, FetchCode(f), p.core.pc));
          CommitAgrees(o, q, 0, 4, AfterFetch(p, filled));
        }
      case _ =>
    }
  }

  /** The machine at the moment its instruction is fetched, if no interrupt is taken. */
  function Begun(p: Machine, lines: Lines): (b: Machine)
    requires WellFormed(p)
    ensures WellFormed(b)
  {
    p.(core := PreExec(p.core, lines))
  }

  predicate Fetches(p: Machine, lines: Lines)
    requires WellFormed(p)
  {
    p.core.stop == Running && Begun(p, lines).core.stop == Running && !Begun(p, lines).core.needTrap
  }

  lemma StepAgrees(m: Machine, lines: Lines, filled: Filled)
    requires CacheOk(m, filled)
    requires Fetches(Uncached(m), lines) ==> MayRun(Begun(Uncached(m), lines), filled)
    ensures Uncached(Step(m, lines)) == Step(Uncached(m), lines)
    ensures CacheOk(Step(m, lines), AfterStep(Uncached(m), lines, filled))
  {
    hide Inv, PreExec, Instruction, Commit, MayRun, AfterInstruction;
    var begun := Begun(m, lines);
    if Fetches(m, lines) {
      InstructionAgrees(begun, filled);
    } else if m.core.stop == Running {
      CommitAgrees(Next(begun), Next(Uncached(begun)), 0, 4, filled);
    }
  }

  function AfterStep(p: Machine, lines: Lines, filled: Filled): Filled
    requires WellFormed(p)
  {
    if Fetches(p, lines) then AfterInstruction(Begun(p, lines), filled) else filled
  }

  // ----- Runs

  /** The hart takes a step, or another hart or device accesses the bus, to load, store, reserve or check. */
  datatype Event = HartStep(lines: Lines) | Other(ctx: Context, access: Access, pa: u64)

  function After(m: Machine, e: Event): (m': Machine)
    requires WellFormed(m)
    ensures WellFormed(m')
  {
    match e
    case HartStep(lines) => Step(m, lines)
    case Other(ctx, a, pa) => m.(bus := Sv39.Perform(m.bus, ctx, a, pa, false).0)
  }

  function Run(m: Machine, es: seq<Event>): (m': Machine)
    requires WellFormed(m)
    ensures WellFormed(m')
    decreases |es|
  {
    if es == [] then m else Run(After(m, es[0]), es[1..])
  }

  function AfterEvent(p: Machine, e: Event, filled: Filled): Filled
    requires WellFormed(p)
  {
    match e
    case HartStep(lines) => AfterStep(p, lines, filled)
    case Other(_, _, _) => filled
  }

  /** Along the run of the machine that walks, no step uses a translation that awaits a fence. */
  predicate Disciplined(p: Machine, es: seq<Event>, filled: Filled)
    requires WellFormed(p)
    decreases |es|
  {
    es == [] ||
    ((es[0].HartStep? && Fetches(p, es[0].lines) ==> MayRun(Begun(p, es[0].lines), filled)) &&
     Disciplined(After(p, es[0]), es[1..], AfterEvent(p, es[0], filled)))
  }

  lemma EventAgrees(m: Machine, e: Event, filled: Filled)
    requires CacheOk(m, filled)
    requires e.HartStep? && Fetches(Uncached(m), e.lines) ==> MayRun(Begun(Uncached(m), e.lines), filled)
    ensures Uncached(After(m, e)) == After(Uncached(m), e)
    ensures CacheOk(After(m, e), AfterEvent(Uncached(m), e, filled))
  {
    hide Inv, Step, MayRun, AfterStep, Sv39.Perform, Fetches;
    match e
    case HartStep(lines) => StepAgrees(m, lines, filled);
    case Other(_, _, _) =>
  }

  /**
   * Registers, CSRs, memory, reservation, traps and failed assertions of every run are those of
   * the same run without a cache, whatever was cached, evicted, or filled for another address
   * space, as long as software fences what it changes.
   */
  lemma {:induction false} RunsAgree(m: Machine, es: seq<Event>, filled: Filled)
    requires CacheOk(m, filled) && Disciplined(Uncached(m), es, filled)
    ensures Uncached(Run(m, es)) == Run(Uncached(m), es)
    decreases |es|
  {
    hide CacheOk, After, MayRun, Fetches, AfterEvent;
    if es != [] {
      CacheIsOk(m, filled);
      EventAgrees(m, es[0], filled);
      CacheIsOk(After(m, es[0]), AfterEvent(Uncached(m), es[0], filled));
      RunsAgree(After(m, es[0]), es[1..], AfterEvent(Uncached(m), es[0], filled));
    }
  }

  lemma CacheIsOk(m: Machine, filled: Filled)
    requires CacheOk(m, filled)
    ensures WellFormed(m) && WellFormed(Uncached(m))
  {
  }

  /** From reset, with an empty cache. */
  lemma RunsAgreeFromReset(hartid: nat, pc: u64, t: Tlb, bus: Bus.BusState, es: seq<Event>)
    requires t.Valid() && forall e :: e in t.entries ==> e.pagesize == 0
    requires Disciplined(Machine(Reset(hartid, pc), None, bus), es, {})
    ensures Uncached(Run(Machine(Reset(hartid, pc), Some(t), bus), es)) ==
            Run(Machine(Reset(hartid, pc), None, bus), es)
  {
    hide Run, Disciplined, Inv;
    EmptyCache(t);
    RunsAgree(Machine(Reset(hartid, pc), Some(t), bus), es, {});
  }
}
