/**
 * Whole runs of a hart from reset: what stays true at every instruction boundary, what the
 * counter of retired instructions counts, and how the privilege mode may move.
 */
module CoreRuns {
  import opened Words
  import opened Sv39
  import opened Privilege
  import opened StatusWord
  import opened Decode
  import opened Exec
  import opened CoreInvariant
  import opened StepEndings
  import Bus

  // ----- One step

  lemma SettledKeeps(c: Core)
    requires CoreOk(c)
    ensures CoreOk(Settled(c)) && !Settled(c).needTrap
  {
  }

  lemma CsrsStepKeeps(c: Core, a: Action, csrs: Csrs)
    requires CsrsOk(c.csrs) && CsrsStep(c, a, csrs)
    ensures CsrsOk(csrs)
  {
    hide CsrsOk, WriteNamed, Bits;
    if csrs != c.csrs {
      var data :| CsrWrite(c.csrs, c.priv, a.index, data) == Written(csrs);
      WriteKeeps(c.csrs, c.priv, DecodeCsr(a.index), data, Bits(data));
    }
  }

  lemma CountKeeps(csrs: Csrs, minstret: u64)
    ensures CsrsOk(csrs) <==> CsrsOk(csrs.(minstret := minstret))
  {
    hide StatusOk, Within, VectorOk, ModeOk;
  }

  lemma EndingKeeps(c: Core, c': Core, e: Ending)
    requires CoreOk(c) && Ends(c, c', e)
    ensures CoreOk(c')
  {
    hide CsrsOk, RaiseTrap, Mret, Sret, CsrsStep;
    match e
    case TakesTrap(code, interrupt, tval) =>
      RaiseKeeps(c, code, interrupt, tval);
      SettledKeeps(RaiseTrap(c, code, interrupt, tval));
    case ReturnsFrom(mode) =>
      ReturnKeeps(c);
      SettledKeeps(if mode == M then Mret(c).value else Sret(c).value);
    case Retires(a, length) =>
      CsrsStepKeeps(c, a, c'.csrs.(minstret := c.csrs.minstret));
      CountKeeps(c'.csrs, c.csrs.minstret);
  }

  lemma StepKeeps(m: Machine, lines: Lines)
    requires Resting(m) && m.core.stop == Running
    ensures Sound(Step(m, lines).core.stop)
    ensures Step(m, lines).core.stop == Running ==> Resting(Step(m, lines))
  {
    hide Step, CsrsOk, Begin, Ends, CalledFor;
    StepEnds(m, lines);
    BeginKeeps(m.core, lines);
    var c, c' := Started(m, lines).core, Step(m, lines).core;
    if c'.stop == Running {
      var e :| Ends(c, c', e) && CalledFor(Started(m, lines), c', e);
      EndingKeeps(c, c', e);
    }
  }

  // ----- Runs

  function Run(m: Machine, lines: seq<Lines>): (m': Machine)
    requires WellFormed(m)
    ensures WellFormed(m')
    decreases |lines|
  {
    if lines == [] then m else Run(Step(m, lines[0]), lines[1..])
  }

  lemma {:induction false} StoppedStays(m: Machine, lines: seq<Lines>)
    requires WellFormed(m) && m.core.stop != Running
    ensures Run(m, lines) == m
    decreases |lines|
  {
    hide Instruction, PreExec;
    if lines != [] {
      assert Step(m, lines[0]) == m;
      StoppedStays(m, lines[1..]);
    }
  }

  /** The invariant holds in every state a run goes through, until the emulator stops. */
  lemma {:induction false} RunKeeps(m: Machine, lines: seq<Lines>)
    requires Resting(m) && m.core.stop == Running
    ensures Sound(Run(m, lines).core.stop)
    ensures Run(m, lines).core.stop == Running ==> Resting(Run(m, lines))
    decreases |lines|
  {
    hide Step, CoreOk;
    if lines != [] {
      StepKeeps(m, lines[0]);
      var m' := Step(m, lines[0]);
      if m'.core.stop == Running {
        RunKeeps(m', lines[1..]);
      } else {
        StoppedStays(m', lines[1..]);
      }
    }
  }

  lemma ResetOk(hartid: nat, pc: u64)
    ensures CoreOk(Reset(hartid, pc)) && !Reset(hartid, pc).needTrap && Reset(hartid, pc).stop == Running
  {
  }

  /**
   * In every run from reset no step raises a second trap or a trap without a cause, x0 reads
   * zero, and the status word keeps its fixed bits.
   */
  lemma FromReset(hartid: nat, pc: u64, tlb: Option<Tlb>, bus: Bus.BusState, lines: seq<Lines>)
    requires TlbOk(tlb)
    ensures var m := Run(Machine(Reset(hartid, pc), tlb, bus), lines);
            && Sound(m.core.stop)
            && (m.core.stop == Running ==>
                  m.core.gpr[0] == 0 && !m.core.needTrap && StatusOk(m.core.csrs.status) && CsrsOk(m.core.csrs))
  {
    hide Reset, Run, CsrsOk, StatusOk;
    ResetOk(hartid, pc);
    RunKeeps(Machine(Reset(hartid, pc), tlb, bus), lines);
    var m := Run(Machine(Reset(hartid, pc), tlb, bus), lines);
    if m.core.stop == Running {
      StatusOfCsrs(m.core.csrs);
    }
  }

  lemma StatusOfCsrs(csrs: Csrs)
    requires CsrsOk(csrs)
    ensures StatusOk(csrs.status)
  {
  }

  // ----- What is counted

  lemma NextIsDifferent(x: u64)
    ensures Wrap64(x + 1) != x
  {
  }

  lemma TrapKeepsCount(c: Core, code: nat, interrupt: bool, tval: u64)
    requires code < 64
    ensures RaiseTrap(c, code, interrupt, tval).csrs.minstret == c.csrs.minstret
    ensures Mret(c).Some? ==> Mret(c).value.csrs.minstret == c.csrs.minstret
    ensures Sret(c).Some? ==> Sret(c).value.csrs.minstret == c.csrs.minstret
  {
    hide TrapMStatus, TrapSStatus, TrapTarget, Delegated, PrivBits, MretStatus, SretStatus, Mpp, Spp, Flag;
  }

  lemma EndingCounts(c: Core, c': Core, e: Ending)
    requires Ends(c, c', e)
    ensures c'.csrs.minstret == if e.Retires? then Wrap64(c.csrs.minstret + 1) else c.csrs.minstret
  {
    hide RaiseTrap, Mret, Sret, CsrsStep;
    match e
    case TakesTrap(code, interrupt, tval) => TrapKeepsCount(c, code, interrupt, tval);
    case ReturnsFrom(_) => TrapKeepsCount(c, 0, false, 0);
    case Retires(_, _) =>
  }

  /** The instruction a step executes, if no interrupt comes before it. */
  function Executed(m: Machine, lines: Lines): Option<Action>
    requires WellFormed(m)
  {
    var b := Started(m, lines);
    if Interrupt(b.core).Some? then None else InstructionOf(b)
  }

  /** The step executes a valid instruction, which leaves neither a trap nor a return pending. */
  predicate StepRetires(m: Machine, lines: Lines)
    requires WellFormed(m)
  {
    Executed(m, lines).Some? &&
    var o := Exec.Perform(Fetched(Started(m, lines)).0, Executed(m, lines).value);
    !o.illegal && !o.m.core.needTrap
  }

  lemma TrapPends(c: Core, code: nat, interrupt: bool, tval: u64)
    requires code < 64 && c.stop == Running
    ensures var t := RaiseTrap(c, code, interrupt, tval); t.stop == Running ==> t.needTrap
  {
    hide TrapMStatus, TrapSStatus, TrapTarget, Delegated, PrivBits;
  }

  lemma ReturnPends(m: Machine, a: Action)
    requires WellFormed(m) && (a == ReturnM || a == ReturnS)
    ensures var o := Exec.Perform(m, a); o.illegal || o.m.core.needTrap
  {
    hide MretStatus, SretStatus, Mpp, Spp, Flag;
  }

  /** Of the endings of a step, it is the retirement that this calls for. */
  lemma RetiresExactly(m: Machine, lines: Lines, c': Core, e: Ending)
    requires Resting(m) && m.core.stop == Running == c'.stop
    requires Ends(Started(m, lines).core, c', e) && CalledFor(Started(m, lines), c', e)
    ensures StepRetires(m, lines) <==> e.Retires?
    ensures StepRetires(m, lines) ==> e.action == Executed(m, lines).value
  {
    hide RaiseTrap, CoreOk, Exec.Perform, Mret, Sret, Retired, Mem, Decoded, FetchedWord, IsCompressed, Interrupt;
    BeginRuns(m.core, lines);
    var b := Started(m, lines);
    match e
    case TakesTrap(code, interrupt, tval) => TrapPends(b.core, code, interrupt, tval);
    case ReturnsFrom(mode) => ReturnPends(Fetched(b).0, if mode == M then ReturnM else ReturnS);
    case Retires(_, _) =>
  }

  ghost function Retirements(m: Machine, lines: seq<Lines>): nat
    requires WellFormed(m)
    decreases |lines|
  {
    if lines == [] then 0 else
    (if StepRetires(m, lines[0]) then 1 else 0) + Retirements(Step(m, lines[0]), lines[1..])
  }

  /** minstret grows exactly when the step neither trapped nor returned from a handler. */
  lemma CountsRetirement(m: Machine, lines: Lines)
    requires Resting(m) && m.core.stop == Running && Step(m, lines).core.stop == Running
    ensures Step(m, lines).core.csrs.minstret ==
            Wrap64(m.core.csrs.minstret + if StepRetires(m, lines) then 1 else 0)
    ensures Step(m, lines).core.csrs.minstret != m.core.csrs.minstret <==> StepRetires(m, lines)
  {
    hide Step, Begin, Ends, CoreOk, CalledFor, StepRetires;
    StepEnds(m, lines);
    BeginKeepsCount(m.core, lines);
    NextIsDifferent(m.core.csrs.minstret);
    var b, c' := Started(m, lines), Step(m, lines).core;
    var e :| Ends(b.core, c', e) && CalledFor(b, c', e);
    EndingCounts(b.core, c', e);
    RetiresExactly(m, lines, c', e);
  }

  lemma BeginKeepsCount(c: Core, lines: Lines)
    ensures Begin(c, lines).csrs.minstret == c.csrs.minstret
  {
  }

  lemma WrapAdds(a: u64, b: nat, c: nat)
    ensures Wrap64(Wrap64(a + b) + c) == Wrap64(a + (b + c))
  {
  }

  /** The counter after a run is the number of instructions that retired in it, modulo 2 to the 64. */
  lemma {:induction false} RunCounts(m: Machine, lines: seq<Lines>)
    requires Resting(m) && m.core.stop == Running && Run(m, lines).core.stop == Running
    ensures Run(m, lines).core.csrs.minstret == Wrap64(m.core.csrs.minstret + Retirements(m, lines))
    decreases |lines|
  {
    hide Step, CoreOk, StepRetires;
    if lines != [] {
      var m' := Step(m, lines[0]);
      if m'.core.stop != Running {
        StoppedStays(m', lines[1..]);
      }
      StepKeeps(m, lines[0]);
      CountsRetirement(m, lines[0]);
      RunCounts(m', lines[1..]);
      WrapAdds(m.core.csrs.minstret, if StepRetires(m, lines[0]) then 1 else 0, Retirements(m', lines[1..]));
    }
  }

  // ----- Privilege

  /** No CSR that user mode may write exists. */
  lemma NoUserWrites(c: Csrs, index: nat, data: u64, bits: bv64)
    requires CsrPermitted(U, index, true)
    ensures WriteNamed(c, U, DecodeCsr(index), data, bits).IllegalWrite?
  {
  }

  /** A user-mode step that does not trap leaves every CSR but the count of instructions, and the mode. */
  lemma UserStepFrame(c: Core, c': Core, e: Ending)
    requires Ends(c, c', e) && c.priv == U && !e.TakesTrap?
    ensures e.Retires?
    ensures c'.csrs == c.csrs.(minstret := Wrap64(c.csrs.minstret + 1))
    ensures c'.priv == c.priv && c'.nextPriv == c.nextPriv
  {
    hide Bits, WriteNamed, CsrPermitted, MretStatus, SretStatus;
    match e
    case ReturnsFrom(mode) => assert false;
    case Retires(a, length) =>
      var csrs := c'.csrs.(minstret := c.csrs.minstret);
      if csrs != c.csrs {
        var data :| CsrWrite(c.csrs, c.priv, a.index, data) == Written(csrs);
        NoUserWrites(c.csrs, a.index, data, Bits(data));
        assert false;
      }
  }

  lemma TrapGoesTo(c: Core, code: nat, interrupt: bool, tval: u64)
    requires code < 64 && code != NO_INT && !c.needTrap
    ensures RaiseTrap(c, code, interrupt, tval).nextPriv == if Delegated(c, code, interrupt) then S else M
  {
    hide TrapMStatus, TrapSStatus, TrapTarget, PrivBits, Bit;
  }

  /** A trap lowers the privilege mode exactly when it is delegated from the reserved mode. */
  lemma TrapLowers(c: Core, code: nat, interrupt: bool, tval: u64)
    requires code < 64 && code != NO_INT && !c.needTrap
    ensures Rank(RaiseTrap(c, code, interrupt, tval).nextPriv) < Rank(c.priv)
            <==> c.priv == H && Delegated(c, code, interrupt)
  {
    hide RaiseTrap, Bit;
    TrapGoesTo(c, code, interrupt, tval);
  }

  lemma TrapHasCause(c: Core, code: nat, interrupt: bool, tval: u64)
    requires code < 64 && RaiseTrap(c, code, interrupt, tval).stop == Running && c.stop == Running
    ensures code != NO_INT && !c.needTrap
  {
    hide TrapMStatus, TrapSStatus, TrapTarget, PrivBits, Bit;
  }

  /** Outside the reserved mode, privilege is lowered only by a return from a handler. */
  lemma DropsByReturn(c: Core, c': Core, e: Ending)
    requires Ends(c, c', e) && c.priv != H && c.nextPriv == c.priv && c.stop == Running == c'.stop
    ensures Rank(c'.nextPriv) < Rank(c.priv) ==> e.ReturnsFrom?
  {
    hide RaiseTrap, Mret, Sret, CsrsStep, Delegated;
    if e.TakesTrap? {
      TrapHasCause(c, e.code, e.interrupt, e.tval);
      TrapLowers(c, e.code, e.interrupt, e.tval);
    }
  }

  /** The reserved mode is entered only through a saved mode of that value. */
  lemma ReservedModeStaysOut(c: Core, c': Core, e: Ending)
    requires Ends(c, c', e) && c.nextPriv == c.priv && c.stop == Running == c'.stop
    requires c.priv != H && Mpp(c.csrs.status) != H
    ensures c'.nextPriv != H
  {
    hide RaiseTrap, CsrsStep, Delegated, MretStatus, SretStatus, Flag, Fld;
    match e
    case TakesTrap(code, interrupt, tval) =>
      TrapHasCause(c, code, interrupt, tval);
      TrapGoesTo(c, code, interrupt, tval);
    case ReturnsFrom(_) => SppIsNotReserved(c.csrs.status);
    case Retires(_, _) =>
  }

  lemma SppIsNotReserved(status: bv64)
    ensures Spp(status) == U || Spp(status) == S
  {
  }

  /** In every state the run goes through, the saved machine mode is not the reserved one. */
  predicate SavedModesLegal(m: Machine, lines: seq<Lines>)
    requires WellFormed(m)
    decreases |lines|
  {
    Mpp(m.core.csrs.status) != H && (lines == [] || SavedModesLegal(Step(m, lines[0]), lines[1..]))
  }

  predicate StepReturns(m: Machine, lines: Lines)
    requires WellFormed(m)
  {
    Executed(m, lines) == Some(ReturnM) || Executed(m, lines) == Some(ReturnS)
  }

  /** In every step of the run that lowers the privilege mode, a handler returns. */
  ghost predicate OnlyReturnsDrop(m: Machine, lines: seq<Lines>)
    requires WellFormed(m)
    decreases |lines|
  {
    lines == [] ||
    (var m' := Step(m, lines[0]);
     && (m'.core.stop == Running && Rank(m'.core.nextPriv) < Rank(m.core.nextPriv) ==> StepReturns(m, lines[0]))
     && OnlyReturnsDrop(m', lines[1..]))
  }

  lemma ReturnIsExecuted(m: Machine, lines: Lines, c': Core, e: Ending)
    requires WellFormed(m) && CalledFor(Started(m, lines), c', e) && e.ReturnsFrom?
    ensures StepReturns(m, lines)
  {
    hide Exec.Perform, Mem, Decoded, FetchedWord, IsCompressed, Interrupt;
  }

  lemma StepDrops(m: Machine, lines: Lines)
    requires Resting(m) && m.core.stop == Running && Step(m, lines).core.stop == Running
    requires m.core.nextPriv != H && Mpp(m.core.csrs.status) != H
    ensures Step(m, lines).core.nextPriv != H
    ensures Rank(Step(m, lines).core.nextPriv) < Rank(m.core.nextPriv) ==> StepReturns(m, lines)
  {
    hide Step, CoreOk, Ends, Mpp, CalledFor, StepReturns;
    StepEnds(m, lines);
    BeginRuns(m.core, lines);
    BeginKeepsStatus(m.core, lines);
    var b, c' := Started(m, lines), Step(m, lines).core;
    var e :| Ends(b.core, c', e) && CalledFor(b, c', e);
    DropsByReturn(b.core, c', e);
    ReservedModeStaysOut(b.core, c', e);
    if e.ReturnsFrom? {
      ReturnIsExecuted(m, lines, c', e);
    }
  }

  lemma BeginKeepsStatus(c: Core, lines: Lines)
    ensures Begin(c, lines).csrs.status == c.csrs.status
  {
  }

  lemma {:induction false} StoppedDrops(m: Machine, lines: seq<Lines>)
    requires WellFormed(m) && m.core.stop != Running
    ensures OnlyReturnsDrop(m, lines)
    decreases |lines|
  {
    hide Instruction, PreExec;
    if lines != [] {
      assert Step(m, lines[0]) == m;
      StoppedDrops(m, lines[1..]);
    }
  }

  /** If no mstatus ever saves the reserved mode, only returns lower the privilege mode. */
  lemma {:induction false} RunDropsByReturn(m: Machine, lines: seq<Lines>)
    requires Resting(m) && m.core.stop == Running && m.core.nextPriv != H && SavedModesLegal(m, lines)
    ensures OnlyReturnsDrop(m, lines)
    decreases |lines|
  {
    hide Step, CoreOk, Mpp, StepReturns;
    if lines != [] {
      var m' := Step(m, lines[0]);
      if m'.core.stop == Running {
        StepKeeps(m, lines[0]);
        StepDrops(m, lines[0]);
        RunDropsByReturn(m', lines[1..]);
      } else {
        StoppedDrops(m', lines[1..]);
      }
    }
  }

  // ----- User-mode runs

  /** Every step of the run is in user mode and retires its instruction. */
  ghost predicate UserRun(m: Machine, lines: seq<Lines>)
    requires WellFormed(m)
    decreases |lines|
  {
    m.core.nextPriv == U && m.core.stop == Running &&
    (lines == [] || (StepRetires(m, lines[0]) && UserRun(Step(m, lines[0]), lines[1..])))
  }

  /** MEIP, SEIP, MTIP and MSIP, which the platform drives. */
  const LINES: bv64 := 0xa88

  /** A CSR file without the counters and the interrupt lines. */
  function Configuration(c: Csrs): Csrs {
    c.(cycle := 0, minstret := 0, mip := c.mip & !LINES)
  }

  lemma LinesOnly(mip: bv64, lines: Lines)
    ensures SetLines(mip, lines) & !LINES == mip & !LINES
  {
  }

  lemma UserStepKeeps(m: Machine, lines: Lines)
    requires Resting(m) && m.core.stop == Running && Step(m, lines).core.stop == Running
    requires m.core.nextPriv == U && StepRetires(m, lines)
    ensures Configuration(Step(m, lines).core.csrs) == Configuration(m.core.csrs)
  {
    hide Step, Ends, SetLines, CalledFor, CoreOk, StepRetires, Begin, Configuration;
    StepEnds(m, lines);
    BeginRuns(m.core, lines);
    BeginKeepsConfiguration(m.core, lines);
    var b, c' := Started(m, lines), Step(m, lines).core;
    var e :| Ends(b.core, c', e) && CalledFor(b, c', e);
    RetiresExactly(m, lines, c', e);
    UserStepFrame(b.core, c', e);
    CountIsNoConfiguration(b.core.csrs, c'.csrs.minstret);
  }

  lemma BeginKeepsConfiguration(c: Core, lines: Lines)
    ensures Configuration(Begin(c, lines).csrs) == Configuration(c.csrs)
  {
    hide SetLines;
    LinesOnly(c.csrs.mip, lines);
  }

  lemma CountIsNoConfiguration(csrs: Csrs, minstret: u64)
    ensures Configuration(csrs.(minstret := minstret)) == Configuration(csrs)
  {
  }

  lemma {:induction false} UserRunFrame(m: Machine, lines: seq<Lines>)
    requires Resting(m) && UserRun(m, lines)
    ensures Configuration(Run(m, lines).core.csrs) == Configuration(m.core.csrs)
    ensures Run(m, lines).core.nextPriv == U
    decreases |lines|
  {
    hide Step, CoreOk, StepRetires, Configuration;
    if lines != [] {
      StepKeeps(m, lines[0]);
      UserStepKeeps(m, lines[0]);
      UserRunFrame(Step(m, lines[0]), lines[1..]);
    }
  }
}
