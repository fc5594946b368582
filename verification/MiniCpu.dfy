/**
 * The small core with four register contexts.  It runs the instructions of the main core on the
 * registers of the current context; a store to one address names the context to go on with after
 * the instruction.  A trap stops it.
 */
module MiniCpu {
  import opened Words
  import opened Privilege
  import opened Decode
  import opened Exec

  const NR_CTX := 4
  const CTX_ID_REG: u64 := 0x66_ccf8
  const PUTC_REG: u64 := 0x66_cd00

  datatype Ctx = Ctx(gpr: seq<u64>, pc: u64)

  /** `shared` is everything but the contexts; the registers and counter in it are not used. */
  datatype Mini = Mini(shared: Machine, ctx: seq<Ctx>, current: u64, newCtx: u64, switchCtx: bool, ch: u64)

  predicate Valid(s: Mini) {
    && |s.ctx| == NR_CTX && s.current < NR_CTX && TlbOk(s.shared.tlb)
    && forall k :: 0 <= k < NR_CTX ==> |s.ctx[k].gpr| == 32
  }

  /** The machine with the current context's registers in it. */
  function View(s: Mini): (m: Machine)
    requires Valid(s)
    ensures WellFormed(m)
  {
    var c := s.ctx[s.current];
    s.shared.(core := s.shared.core.(gpr := c.gpr, pc := c.pc))
  }

  /** The registers go back to the current context. */
  function Back(s: Mini, m: Machine): (s': Mini)
    requires Valid(s) && WellFormed(m)
    ensures Valid(s')
  {
    s.(shared := m, ctx := s.ctx[s.current := Ctx(m.core.gpr, m.core.pc)])
  }

  function Stop(s: Mini): Mini {
    s.(shared := Halt(s.shared))
  }

  datatype Effect = Effect(s: Mini, jumped: bool, trapped: bool)

  /** An instruction that does not touch the two special addresses runs as on the main core. */
  function OnMain(s: Mini, a: Action): (e: Effect)
    requires Valid(s)
    ensures Valid(e.s)
  {
    var o := Exec.Perform(View(s), a);
    Effect(Back(s, o.m), o.jumped, o.illegal || (o.m.core.needTrap && !a.ReturnM? && !a.ReturnS?))
  }

  function Result(s: Mini, rd: RegNo, value: u64): (e: Effect)
    requires Valid(s)
    ensures Valid(e.s)
  {
    Effect(Back(s, WriteReg(View(s), rd, value)), false, false)
  }

  function Load(s: Mini, a: Action): (e: Effect)
    requires Valid(s) && a.LoadReg?
    ensures Valid(e.s)
  {
    if a.va == CTX_ID_REG then
      if a.size == 8 then Result(s, a.rd, s.current) else Effect(s, false, true)
    else if a.va == PUTC_REG then
      if a.size == 4 then Result(s, a.rd, Extend(ToBytes(s.ch, 4), 4, a.signed))
      else Effect(s, false, true)
    else OnMain(s, a)
  }

  function Store(s: Mini, a: Action): (e: Effect)
    requires Valid(s) && a.StoreMem?
    ensures Valid(e.s)
  {
    if a.va == CTX_ID_REG then
      if a.size == 8 then Effect(s.(newCtx := a.value, switchCtx := true), false, false) else Effect(s, false, true)
    else if a.va == PUTC_REG then
      if a.size == 4 then Effect(s.(ch := a.value % 0x1_0000_0000), false, false)
      else Effect(s, false, true)
    else OnMain(s, a)
  }

  function Perform(s: Mini, a: Action): (e: Effect)
    requires Valid(s)
    ensures Valid(e.s)
  {
    if a.LoadReg? then Load(s, a) else if a.StoreMem? then Store(s, a) else OnMain(s, a)
  }

  /** The asynchronous loads and stores have opcodes of their own and the effect of the plain ones. */
  function DecodeMini(c: Core, w: bv32): Action
    requires HasRegs(c)
  {
    if IsCompressed(w) then DecodeC(c, w)
    else if Opcode(w) == 0x0b then DecodeLoad(c, w)
    else if Opcode(w) == 0x2b then DecodeStore(c, w)
    else Decode32(c, w)
  }

  /** A context that does not exist stops the core. */
  function Switch(s: Mini): (s': Mini)
    requires Valid(s)
    ensures Valid(s')
  {
    if !s.switchCtx then s
    else if s.newCtx >= NR_CTX then Stop(s)
    else s.(switchCtx := false, current := s.newCtx)
  }

  /** The end of a step: the counter of the current context moves, then the context may change. */
  function Conclude(e: Effect, length: nat): (s': Mini)
    requires Valid(e.s)
    ensures Valid(s')
  {
    if e.trapped then Stop(e.s)
    else if e.s.shared.core.stop != Running then e.s
    else Switch(Back(e.s, Retire(View(e.s), e.jumped, length)))
  }

  predicate Runs(s: Mini) {
    s.shared.core.stop == Running
  }

  /** The state in which the instruction is performed, and the instruction; None if the core stops first. */
  function Fetching(s: Mini, lines: Lines): (r: (Mini, Option<bv32>))
    requires Valid(s)
    ensures Valid(r.0) && (r.0.ctx, r.0.current, r.0.newCtx, r.0.switchCtx) == (s.ctx, s.current, s.newCtx, s.switchCtx)
  {
    var begun := View(s).(core := Begin(View(s).core, lines));
    if Interrupt(begun.core).Some? || begun.core.pc % 2 != 0 then (s.(shared := begun), None) else
    var (m, reply) := Fetched(begun);
    (s.(shared := m), if reply.Data? then Some(FetchedWord(reply.value)) else None)
  }

  function Advance(s: Mini, lines: Lines): (s': Mini)
    requires Valid(s)
    ensures Valid(s')
  {
    if !Runs(s) then s else
    var (ready, w) := Fetching(s, lines);
    match w
    case None => Stop(ready)
    case Some(w) => Conclude(Perform(ready, DecodeMini(View(ready).core, w)), if IsCompressed(w) then 2 else 4)
  }

  // ----- Contexts do not interfere

  lemma PerformIsolates(s: Mini, a: Action)
    requires Valid(s)
    ensures var t := Perform(s, a).s;
            t.current == s.current && forall k :: 0 <= k < NR_CTX && k != s.current ==> t.ctx[k] == s.ctx[k]
  {
    hide Exec.Perform, WriteReg, Extend, ToBytes;
  }

  lemma ConcludeIsolates(e: Effect, length: nat)
    requires Valid(e.s)
    ensures forall k :: 0 <= k < NR_CTX && k != e.s.current ==> Conclude(e, length).ctx[k] == e.s.ctx[k]
  {
    hide Retire;
  }

  /** A step changes the registers and the counter of the current context only. */
  lemma StepIsolates(s: Mini, lines: Lines, k: nat)
    requires Valid(s) && k < NR_CTX && k != s.current
    ensures Advance(s, lines).ctx[k] == s.ctx[k]
  {
    hide Perform, Conclude, DecodeMini, IsCompressed, Fetching;
    var (ready, w) := Fetching(s, lines);
    if w.Some? {
      var e := Perform(ready, DecodeMini(View(ready).core, w.value));
      PerformIsolates(ready, DecodeMini(View(ready).core, w.value));
      ConcludeIsolates(e, if IsCompressed(w.value) then 2 else 4);
    }
  }

  /** The instruction of the step is a store of `k` to the context register. */
  predicate Yields(s: Mini, lines: Lines, k: u64)
    requires Valid(s)
  {
    var (ready, w) := Fetching(s, lines);
    Runs(s) && w.Some? && DecodeMini(View(ready).core, w.value) == StoreMem(CTX_ID_REG, 8, k)
  }

  function LengthOf(s: Mini, lines: Lines): nat
    requires Valid(s)
  {
    var w := Fetching(s, lines).1;
    if w.Some? && IsCompressed(w.value) then 2 else 4
  }

  lemma FetchKeepsRunning(s: Mini, lines: Lines)
    requires Valid(s) && Runs(s)
    ensures var ready := Fetching(s, lines).0;
            Runs(ready) && !ready.shared.core.needTrap && View(ready).core.gpr == s.ctx[s.current].gpr
  {
    hide Interrupt, Mem, FetchedWord, SetLines;
  }

  /** The context that yields keeps its registers, with its counter after the store. */
  lemma YieldSaves(s: Mini, lines: Lines, k: u64)
    requires Valid(s) && k < NR_CTX && Yields(s, lines, k)
    ensures var t := Advance(s, lines);
            && t.current == k && Runs(t) && !t.switchCtx
            && t.ctx == s.ctx[s.current := Ctx(s.ctx[s.current].gpr, Wrap64(s.ctx[s.current].pc + LengthOf(s, lines)))]
  {
    hide DecodeMini, IsCompressed, Fetching, OnMain, Load;
    FetchKeepsRunning(s, lines);
  }

  lemma PerformSwitches(s: Mini, a: Action)
    requires Valid(s) && !s.switchCtx
    ensures var t := Perform(s, a).s;
            t.switchCtx <==> a.StoreMem? && a.va == CTX_ID_REG && a.size == 8
    ensures Perform(s, a).s.switchCtx ==> Perform(s, a).s.newCtx == a.value
  {
    hide Exec.Perform, WriteReg, Extend, ToBytes;
  }

  /** Between steps no switch is pending, and only a yield changes the context. */
  lemma OnlyYieldsSwitch(s: Mini, lines: Lines)
    requires Valid(s) && !s.switchCtx
    ensures var t := Advance(s, lines);
            && (Runs(t) ==> !t.switchCtx)
            && (t.current != s.current ==> Yields(s, lines, t.current))
  {
    hide Perform, DecodeMini, IsCompressed, Fetching, Retire;
    var (ready, w) := Fetching(s, lines);
    if Runs(s) && w.Some? {
      PerformSwitches(ready, DecodeMini(View(ready).core, w.value));
      PerformIsolates(ready, DecodeMini(View(ready).core, w.value));
    }
  }

  // ----- Runs

  function Run(s: Mini, lines: seq<Lines>): (s': Mini)
    requires Valid(s)
    ensures Valid(s')
    decreases |lines|
  {
    if lines == [] then s else Run(Advance(s, lines[0]), lines[1..])
  }

  /** In no step of the run is it the context's turn. */
  predicate Away(s: Mini, lines: seq<Lines>, k: nat)
    requires Valid(s)
    decreases |lines|
  {
    lines == [] || (s.current != k && Away(Advance(s, lines[0]), lines[1..], k))
  }

  lemma {:induction false} AwayKeeps(s: Mini, lines: seq<Lines>, k: nat)
    requires Valid(s) && k < NR_CTX && Away(s, lines, k)
    ensures Run(s, lines).ctx[k] == s.ctx[k]
    decreases |lines|
  {
    hide Advance;
    if lines != [] {
      StepIsolates(s, lines[0], k);
      AwayKeeps(Advance(s, lines[0]), lines[1..], k);
    }
  }

  /**
   * A context that yields resumes at the instruction after the store with the registers it had,
   * whatever the others did until its next turn.
   */
  lemma YieldThenResume(s: Mini, first: Lines, others: seq<Lines>, k: u64)
    requires Valid(s) && k < NR_CTX && Yields(s, first, k)
    requires Away(Advance(s, first), others, s.current) && Run(Advance(s, first), others).current == s.current
    ensures var back := View(Run(Advance(s, first), others)).core;
            && back.gpr == s.ctx[s.current].gpr
            && back.pc == Wrap64(s.ctx[s.current].pc + LengthOf(s, first))
  {
    hide Advance, Yields, LengthOf;
    YieldSaves(s, first, k);
    AwayKeeps(Advance(s, first), others, s.current);
  }

  // ----- The core as an object

  /** The contexts are an array that the instructions update in place; the rest of the hart is a value. */
  class MiniCore {
    const ctx: array<Ctx>
    var shared: Machine
    var currentCtx: u64
    var newCtx: u64
    var switchCtx: bool
    var ch: u64

    ghost function State(): Mini
      reads this, ctx
    {
      Mini(shared, ctx[..], currentCtx, newCtx, switchCtx, ch)
    }

    constructor (shared: Machine, pc: u64)
      requires TlbOk(shared.tlb)
      ensures fresh(ctx) && Valid(State()) && !switchCtx && currentCtx == 0
      ensures this.shared == shared && forall k :: 0 <= k < NR_CTX ==> ctx[k] == Ctx(seq(32, _ => 0), pc)
    {
      this.shared := shared;
      ctx := new Ctx[NR_CTX](_ => Ctx(seq(32, _ => 0), pc));
      currentCtx, newCtx, switchCtx, ch := 0, 0, false, 0;
    }

    /** Takes over a machine's state, its registers into the current context. */
    method Keep(m: Machine)
      requires Valid(State()) && WellFormed(m)
      modifies this, ctx
      ensures State() == Back(old(State()), m)
    {
      shared := m;
      ctx[currentCtx] := Ctx(m.core.gpr, m.core.pc);
    }

    method Current() returns (m: Machine)
      requires Valid(State())
      ensures m == View(State())
    {
      var c := ctx[currentCtx];
      m := shared.(core := shared.core.(gpr := c.gpr, pc := c.pc));
    }

    method MemWrite(a: Action) returns (jumped: bool, trapped: bool)
      requires Valid(State()) && a.StoreMem?
      modifies this, ctx
      ensures Effect(State(), jumped, trapped) == Store(old(State()), a)
    {
      jumped, trapped := false, false;
      if a.va == CTX_ID_REG {
        if a.size != 8 {
          trapped := true;
          return;
        }
        newCtx := a.value;
        switchCtx := true;
      } else if a.va == PUTC_REG {
        if a.size != 4 {
          trapped := true;
          return;
        }
        ch := a.value % 0x1_0000_0000;
      } else {
        jumped, trapped := RunOnMain(a);
      }
    }

    method MemRead(a: Action) returns (jumped: bool, trapped: bool)
      requires Valid(State()) && a.LoadReg?
      modifies this, ctx
      ensures Effect(State(), jumped, trapped) == Load(old(State()), a)
    {
      hide WriteReg, Extend, ToBytes;
      jumped, trapped := false, false;
      if a.va == CTX_ID_REG {
        if a.size != 8 {
          trapped := true;
          return;
        }
        var m := Current();
        Keep(WriteReg(m, a.rd, currentCtx));
      } else if a.va == PUTC_REG {
        if a.size != 4 {
          trapped := true;
          return;
        }
        var m := Current();
        Keep(WriteReg(m, a.rd, Extend(ToBytes(ch, 4), 4, a.signed)));
      } else {
        jumped, trapped := RunOnMain(a);
      }
    }

    method RunOnMain(a: Action) returns (jumped: bool, trapped: bool)
      requires Valid(State())
      modifies this, ctx
      ensures Effect(State(), jumped, trapped) == OnMain(old(State()), a)
    {
      hide Exec.Perform;
      var m := Current();
      var o := Exec.Perform(m, a);
      Keep(o.m);
      jumped, trapped := o.jumped, o.illegal || (o.m.core.needTrap && !a.ReturnM? && !a.ReturnS?);
    }

    method DoConclude(jumped: bool, trapped: bool, length: nat)
      requires Valid(State())
      modifies this, ctx
      ensures State() == Conclude(Effect(old(State()), jumped, trapped), length)
    {
      hide Retire;
      if trapped {
        shared := Halt(shared);
        return;
      }
      if shared.core.stop != Running {
        return;
      }
      var m := Current();
      Keep(Retire(m, jumped, length));
      if switchCtx {
        if newCtx >= NR_CTX {
          shared := Halt(shared);
        } else {
          switchCtx := false;
          currentCtx := newCtx;
        }
      }
    }

    method DoStep(lines: Lines)
      requires Valid(State())
      modifies this, ctx
      ensures Valid(State()) && State() == Advance(old(State()), lines)
    {
      hide Begin, Interrupt, Fetched, FetchedWord, DecodeMini, IsCompressed, Load, Store, OnMain, Conclude;
      if shared.core.stop != Running {
        return;
      }
      var m := Current();
      var begun := m.(core := Begin(m.core, lines));
      BeginShape(m, lines);
      if Interrupt(begun.core).Some? || begun.core.pc % 2 != 0 {
        shared := Halt(begun);
        return;
      }
      var (fetched, reply) := Fetched(begun);
      shared := fetched;
      if !reply.Data? {
        shared := Halt(fetched);
        return;
      }
      var w := FetchedWord(reply.value);
      var ready := Current();
      var a := DecodeMini(ready.core, w);
      var jumped, trapped;
      if a.LoadReg? {
        jumped, trapped := MemRead(a);
      } else if a.StoreMem? {
        jumped, trapped := MemWrite(a);
      } else {
        jumped, trapped := RunOnMain(a);
      }
      DoConclude(jumped, trapped, if IsCompressed(w) then 2 else 4);
    }
  }

  lemma BeginShape(m: Machine, lines: Lines)
    requires WellFormed(m)
    ensures WellFormed(m.(core := Begin(m.core, lines)))
  {
  }
}
