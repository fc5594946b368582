/**
 * How a step ends: with one precise trap, with a return from a handler, or by retiring its
 * instruction.  Nothing else is possible, and no step traps twice.
 */
module StepEndings {
  import opened Words
  import opened Sv39
  import opened Privilege
  import opened Decode
  import opened Exec
  import opened CoreInvariant
  import InterruptChoice
  import Alu

  // ----- The effect of an action

  datatype Effect = Faults(code: Exception, tval: u64) | Invalid | Returns | Halts | Completes

  function Destination(a: Action): RegNo {
    match a
    case SetReg(rd, _) => rd
    case Compute(rd, _, _, _, _) => rd
    case JumpAndLink(rd, _, _) => rd
    case LoadReg(rd, _, _, _) => rd
    case Atomic(rd, _, _, _) => rd
    case CsrOp(rd, _, _, _, _) => rd
    case _ => 0
  }

  predicate IsJump(a: Action) {
    a.JumpTo? || a.JumpAndLink? || a.GoTo?
  }

  function JumpTarget(a: Action): u64
    requires IsJump(a)
  {
    match a
    case JumpTo(target) => target
    case JumpAndLink(_, _, target) => target
    case GoTo(target) => target
  }

  /** Only a permitted CSR instruction changes CSRs, by one write. */
  ghost predicate CsrsStep(c: Core, a: Action, csrs: Csrs) {
    csrs == c.csrs ||
    (a.CsrOp? && a.write && CsrPermitted(c.priv, a.index, true) &&
     exists data :: CsrWrite(c.csrs, c.priv, a.index, data) == Written(csrs))
  }

  /** A completed action writes its destination, perhaps the counter, and perhaps one CSR. */
  ghost predicate Completed(c: Core, c': Core, a: Action) {
    && HasRegs(c) && HasRegs(c') && c'.gpr[0] == c.gpr[0]
    && (forall r :: 0 <= r < 32 && r != Destination(a) ==> c'.gpr[r] == c.gpr[r])
    && CsrsStep(c, a, c'.csrs)
    && c'.pc == (if IsJump(a) then JumpTarget(a) else c.pc)
    && (c'.priv, c'.nextPriv, c'.needTrap, c'.stop) == (c.priv, c.nextPriv, c.needTrap, c.stop)
  }

  ghost predicate Performed(c: Core, a: Action, o: Outcome, e: Effect) {
    match e
    case Invalid => o.illegal && o.m.core == c
    case Faults(code, tval) => !o.illegal && o.m.core == RaiseTrap(c, code, false, tval)
    case Returns =>
      !o.illegal && ((a.ReturnM? && Mret(c) == Some(o.m.core)) || (a.ReturnS? && Sret(c) == Some(o.m.core)))
    case Halts => !o.illegal && o.m.core == c.(stop := Unexpected)
    case Completes => !o.illegal && Completed(c, o.m.core, a) && o.jumped == IsJump(a)
  }

  lemma WritesRegister(m: Machine, r: RegNo, value: u64)
    requires WellFormed(m)
    ensures var g, g' := m.core.gpr, WriteReg(m, r, value).core.gpr;
            && WriteReg(m, r, value).core == m.core.(gpr := g') && |g'| == 32 && g'[0] == g[0]
            && forall k :: 0 <= k < 32 && k != r ==> g'[k] == g[k]
  {
  }

  lemma LoadEffect(m: Machine, a: Action)
    requires WellFormed(m) && a.LoadReg?
    ensures exists e :: Performed(m.core, a, Exec.Perform(m, a), e)
  {
    hide Extend, RaiseTrap, SetGpr, WriteReg, Mem;
    var o := Exec.Perform(m, a);
    var (m', reply) := Mem(m, Read(a.size), a.va);
    if a.va % a.size != 0 {
      assert Performed(m.core, a, o, Faults(4, a.va));
    } else if reply.Data? {
      WritesRegister(m', a.rd, Extend(reply.value, a.size, a.signed));
      assert Performed(m.core, a, o, Completes);
    } else if reply.Faulted? {
      assert Performed(m.core, a, o, Faults(LoadCode(reply.fault), a.va));
    } else {
      assert Performed(m.core, a, o, Halts);
    }
  }

  lemma StoreEffect(m: Machine, a: Action)
    requires WellFormed(m) && a.StoreMem?
    ensures exists e :: Performed(m.core, a, Exec.Perform(m, a), e)
  {
    hide RaiseTrap, Mem;
    var o := Exec.Perform(m, a);
    var (m', reply) := Mem(m, Write(ToBytes(a.value, a.size)), a.va);
    if a.va % a.size != 0 {
      assert Performed(m.core, a, o, Faults(6, a.va));
    } else if reply.Stored? {
      assert Performed(m.core, a, o, Completes);
    } else if reply.Faulted? {
      assert Performed(m.core, a, o, Faults(StoreCode(reply.fault), a.va));
    } else {
      assert Performed(m.core, a, o, Halts);
    }
  }

  lemma AtomicEffect(m: Machine, a: Action)
    requires WellFormed(m) && a.Atomic?
    ensures exists e :: Performed(m.core, a, Exec.Perform(m, a), e)
  {
    hide Extend, RaiseTrap, SetGpr, WriteReg, Mem;
    var o := Exec.Perform(m, a);
    var (m', reply) := Mem(m, a.access, a.va);
    match reply
    case Data(bytes) =>
      WritesRegister(m', a.rd, Extend(bytes, a.size, true));
      assert Performed(m.core, a, o, Completes);
    case Conditional(failed) =>
      WritesRegister(m', a.rd, if failed then 1 else 0);
      assert Performed(m.core, a, o, Completes);
    case Prior(prior) =>
      WritesRegister(m', a.rd, prior);
      assert Performed(m.core, a, o, Completes);
    case Faulted(f) =>
      assert Performed(m.core, a, o, Faults(StoreCode(f), a.va));
    case _ =>
      assert Performed(m.core, a, o, Halts);
  }

  lemma CsrEffect(m: Machine, a: Action)
    requires WellFormed(m) && a.CsrOp?
    ensures exists e :: Performed(m.core, a, Exec.Perform(m, a), e)
  {
    hide CsrRead, CsrWrite, CsrValue, CsrPermitted, SetGpr, WriteReg;
    var c, o := m.core, Exec.Perform(m, a);
    var prior := CsrRead(c.csrs, c.priv, a.index);
    if !CsrPermitted(c.priv, a.index, a.write) || prior.None? {
      assert Performed(c, a, o, Invalid);
    } else {
      var data := CsrValue(a.f, prior.value, a.operand);
      var update := CsrUpdate(c, a.index, data, a.write);
      match update
      case IllegalWrite => assert Performed(c, a, o, Invalid);
      case WriteStops => assert Performed(c, a, o, Halts);
      case Written(csrs) =>
        WritesRegister(m.(core := c.(csrs := csrs)), a.rd, prior.value);
        assert o.m == WriteReg(m.(core := c.(csrs := csrs)), a.rd, prior.value) by {
          CsrWritesRegister(m, a, csrs, prior.value);
        }
        if a.write {
          assert CsrWrite(c.csrs, c.priv, a.index, data) == Written(csrs);
        }
        assert Performed(c, a, o, Completes);
    }
  }

  lemma CsrWritesRegister(m: Machine, a: Action, csrs: Csrs, value: u64)
    requires WellFormed(m) && a.CsrOp?
    ensures m.(core := SetGpr(m.core.(csrs := csrs), a.rd, value)) ==
            WriteReg(m.(core := m.core.(csrs := csrs)), a.rd, value)
  {
  }

  lemma JumpEffect(m: Machine, a: Action)
    requires WellFormed(m) && IsJump(a)
    ensures exists e :: Performed(m.core, a, Exec.Perform(m, a), e)
  {
    hide RaiseTrap, SetGpr, WriteReg;
    var o := Exec.Perform(m, a);
    if a.GoTo? {
      assert Performed(m.core, a, o, Completes);
    } else if JumpTarget(a) % 2 != 0 {
      assert Performed(m.core, a, o, Faults(0, JumpTarget(a)));
    } else {
      if a.JumpAndLink? {
        WritesRegister(m, a.rd, a.link);
      }
      assert Performed(m.core, a, o, Completes);
    }
  }

  lemma OtherEffect(m: Machine, a: Action)
    requires WellFormed(m) && !IsJump(a) && !a.LoadReg? && !a.StoreMem? && !a.Atomic? && !a.CsrOp?
    ensures exists e :: Performed(m.core, a, Exec.Perform(m, a), e)
  {
    hide RaiseTrap, SetGpr, WriteReg, Mret, Sret, SfencePermitted, Flush, Alu.Exec;
    var o := Exec.Perform(m, a);
    match a
    case SetReg(rd, value) =>
      WritesRegister(m, rd, value);
      assert Performed(m.core, a, o, Completes);
    case Compute(rd, x, y, op, op32) =>
      WritesRegister(m, rd, Alu.Exec(x, y, op, op32));
      assert Performed(m.core, a, o, Completes);
    case Nothing =>
      assert Performed(m.core, a, o, Completes);
    case IllegalInstruction =>
      assert Performed(m.core, a, o, Invalid);
    case Trap(code) =>
      assert Performed(m.core, a, o, Faults(code, 0));
    case ReturnM =>
      assert Performed(m.core, a, o, if Mret(m.core).Some? then Returns else Invalid);
    case ReturnS =>
      assert Performed(m.core, a, o, if Sret(m.core).Some? then Returns else Invalid);
    case FenceVma(_, _) =>
      assert Performed(m.core, a, o, if SfencePermitted(m.core) then Completes else Invalid);
  }

  /** Every action has exactly one of these effects on the core. */
  lemma ActionEffect(m: Machine, a: Action)
    requires WellFormed(m)
    ensures exists e :: Performed(m.core, a, Exec.Perform(m, a), e)
  {
    hide Exec.Perform, Performed;
    if IsJump(a) { JumpEffect(m, a); }
    else if a.LoadReg? { LoadEffect(m, a); }
    else if a.StoreMem? { StoreEffect(m, a); }
    else if a.Atomic? { AtomicEffect(m, a); }
    else if a.CsrOp? { CsrEffect(m, a); }
    else { OtherEffect(m, a); }
  }

  // ----- The end of a step

  datatype Ending =
    | TakesTrap(code: nat, interrupt: bool, tval: u64)
    | ReturnsFrom(mode: Priv)
    | Retires(action: Action, length: nat)

  function Settled(c: Core): Core {
    c.(pc := c.trapPc, needTrap := false)
  }

  /** The program counter moves to the jump target or past the instruction, and one more is counted. */
  ghost predicate Retired(c: Core, c': Core, a: Action, length: nat) {
    && HasRegs(c) && HasRegs(c') && c'.gpr[0] == c.gpr[0]
    && (forall r :: 0 <= r < 32 && r != Destination(a) ==> c'.gpr[r] == c.gpr[r])
    && c'.csrs.minstret == Wrap64(c.csrs.minstret + 1)
    && CsrsStep(c, a, c'.csrs.(minstret := c.csrs.minstret))
    && (length == 2 || length == 4)
    && c'.pc == (if IsJump(a) then JumpTarget(a) else Wrap64(c.pc + length))
    && (c'.priv, c'.nextPriv, c'.needTrap, c'.stop) == (c.priv, c.nextPriv, c.needTrap, c.stop)
  }

  /** From the state the step began in to the one it left: a trap changes nothing but what it records. */
  ghost predicate Ends(c: Core, c': Core, e: Ending) {
    match e
    case TakesTrap(code, interrupt, tval) => code < 64 && c' == Settled(RaiseTrap(c, code, interrupt, tval))
    case ReturnsFrom(mode) =>
      || (mode == M && Mret(c).Some? && c' == Settled(Mret(c).value))
      || (mode == S && Sret(c).Some? && c' == Settled(Sret(c).value))
    case Retires(a, length) => Retired(c, c', a, length)
  }

  /** One more retired instruction. */
  function Counted(csrs: Csrs): Csrs {
    csrs.(minstret := Wrap64(csrs.minstret + 1))
  }

  /** What the step began with calls for this ending: the interrupt, the fetch, or the word fetched. */
  ghost predicate CalledFor(b: Machine, c': Core, e: Ending)
    requires WellFormed(b)
  {
    if e.TakesTrap? && e.interrupt then Interrupt(b.core) == Some(e.code) && e.tval == 0 else
    Interrupt(b.core).None? &&
    match WordAt(b)
    case None =>
      && e.TakesTrap? && e.tval == b.core.pc
      && if b.core.pc % 2 != 0 then e.code == 0
         else Fetched(b).1.Faulted? && e.code == FetchCode(Fetched(b).1.fault)
    case Some(w) =>
      var a := Decoded(b.core, w);
      var o := Exec.Perform(Fetched(b).0, a);
      match e
      case TakesTrap(code, _, tval) =>
        if o.illegal then (code, tval) == (2, Word(w as bv64))
        else code < 64 && o.m.core == RaiseTrap(b.core, code, false, tval)
      case ReturnsFrom(mode) => a == if mode == M then ReturnM else ReturnS
      case Retires(action, length) =>
        && (action, length) == (a, if IsCompressed(w) then 2 else 4) && !o.illegal && !o.m.core.needTrap
        && c'.gpr == o.m.core.gpr && c'.csrs == Counted(o.m.core.csrs)
  }

  /** The assertions against a second trap and against a trap without a cause hold. */
  predicate Sound(stop: Stop) {
    stop != SecondTrap && stop != NoCause
  }

  ghost predicate EndsAs(c: Core, c': Core, e: Ending) {
    Sound(c'.stop) && (c'.stop == Running ==> !c'.needTrap && Ends(c, c', e))
  }

  ghost predicate EndsWell(b: Machine, c': Core)
    requires WellFormed(b)
  {
    Sound(c'.stop) && (c'.stop == Running ==> !c'.needTrap && exists e :: Ends(b.core, c', e) && CalledFor(b, c', e))
  }

  lemma RaiseSets(c: Core, code: nat, interrupt: bool, tval: u64)
    requires !c.needTrap && c.stop == Running && code < 64 && code != NO_INT
    ensures var t := RaiseTrap(c, code, interrupt, tval);
            && t.needTrap && Sound(t.stop)
            && t.csrs.minstret == c.csrs.minstret
  {
    hide TrapMStatus, TrapSStatus, TrapTarget, Delegated, PrivBits;
  }

  lemma TrapEnds(m: Machine, code: nat, interrupt: bool, tval: u64, w: bv32, length: nat)
    requires WellFormed(m) && !m.core.needTrap && m.core.stop == Running && code < 64 && code != NO_INT
    ensures EndsAs(m.core, Commit(Next(m.(core := RaiseTrap(m.core, code, interrupt, tval))), w, length).core,
                   TakesTrap(code, interrupt, tval))
  {
    hide RaiseTrap;
    RaiseSets(m.core, code, interrupt, tval);
  }

  lemma ReturnSets(c: Core)
    ensures Mret(c).Some? ==> Mret(c).value.needTrap && Mret(c).value.stop == c.stop
    ensures Sret(c).Some? ==> Sret(c).value.needTrap && Sret(c).value.stop == c.stop
  {
    hide MretStatus, SretStatus, Mpp, Spp, Flag;
  }

  /** The ending that the effect of an action leads to, if nothing stops the emulator. */
  function EndingOf(a: Action, e: Effect, w: bv32, length: nat): Ending {
    match e
    case Invalid => TakesTrap(2, false, Word(w as bv64))
    case Faults(code, tval) => TakesTrap(code, false, tval)
    case Returns => ReturnsFrom(if a.ReturnM? then M else S)
    case _ => Retires(a, length)
  }

  lemma CommitCompletes(m: Machine, a: Action, o: Outcome, w: bv32, length: nat)
    requires WellFormed(m) && WellFormed(o.m) && !m.core.needTrap && m.core.stop == Running
    requires Performed(m.core, a, o, Completes) && (length == 2 || length == 4)
    ensures EndsAs(m.core, Commit(o, w, length).core, Retires(a, length))
  {
    hide RaiseTrap, Mret, Sret, CsrsStep;
    var c, c' := m.core, Commit(o, w, length).core;
    StepKeepsCount(c, a, o.m.core.csrs);
    assert c'.csrs.(minstret := c.csrs.minstret) == o.m.core.csrs;
  }

  lemma CommitReturns(m: Machine, a: Action, o: Outcome, w: bv32, length: nat)
    requires WellFormed(m) && WellFormed(o.m) && !m.core.needTrap && m.core.stop == Running
    requires Performed(m.core, a, o, Returns)
    ensures EndsAs(m.core, Commit(o, w, length).core, ReturnsFrom(if a.ReturnM? then M else S))
  {
    hide RaiseTrap, Mret, Sret, CsrsStep, Retired;
    ReturnSets(m.core);
  }

  lemma CommitEnds(m: Machine, a: Action, o: Outcome, e: Effect, w: bv32, length: nat)
    requires WellFormed(m) && WellFormed(o.m) && !m.core.needTrap && m.core.stop == Running
    requires Performed(m.core, a, o, e) && (length == 2 || length == 4)
    ensures EndsAs(m.core, Commit(o, w, length).core, EndingOf(a, e, w, length))
    ensures Commit(o, w, length).core.stop == Running ==> !e.Halts?
  {
    hide RaiseTrap, Mret, Sret, Completed, Retired;
    match e
    case Invalid => RaiseSets(m.core, 2, false, Word(w as bv64));
    case Faults(code, tval) => RaiseSets(m.core, code, false, tval);
    case Returns => CommitReturns(m, a, o, w, length);
    case Completes =>
      CommitCompletes(m, a, o, w, length);
    case Halts =>
  }

  lemma CompletedIsQuiet(c: Core, a: Action, o: Outcome)
    requires Performed(c, a, o, Completes)
    ensures o.m.core.needTrap == c.needTrap && !o.illegal
  {
  }

  lemma CommitCounts(o: Outcome, w: bv32, length: nat)
    requires WellFormed(o.m)
    ensures Commit(o, w, length).core.gpr == o.m.core.gpr
    ensures !o.illegal && !o.m.core.needTrap && Commit(o, w, length).core.stop == Running ==>
              Commit(o, w, length).core.csrs == Counted(o.m.core.csrs)
  {
    hide RaiseTrap;
  }

  lemma StepKeepsCount(c: Core, a: Action, csrs: Csrs)
    requires CsrsStep(c, a, csrs)
    ensures csrs.minstret == c.csrs.minstret
  {
    hide WriteNamed, Bits;
    if csrs != c.csrs {
      var data :| CsrWrite(c.csrs, c.priv, a.index, data) == Written(csrs);
      WriteFrame(c.csrs, c.priv, DecodeCsr(a.index), data, Bits(data));
    }
  }

  // ----- Steps

  /** The state in which a step's instruction or interrupt is considered. */
  function Started(m: Machine, lines: Lines): (b: Machine)
    ensures WellFormed(m) ==> WellFormed(b)
  {
    m.(core := Begin(m.core, lines))
  }

  /** A word that has been fetched ends as its decoded action does. */
  lemma WordEnds(b: Machine, w: bv32)
    requires WellFormed(b) && CoreOk(b.core) && !b.core.needTrap && b.core.stop == Running
    requires Interrupt(b.core).None? && WordAt(b) == Some(w)
    ensures EndsWell(b, Instruction(b).core)
  {
    hide RaiseTrap, CoreOk, FetchedWord, Commit, Decoded, Exec.Perform, IsCompressed, Performed, Mem, Ends, Interrupt;
    var m := Fetched(b).0;
    var a := Decoded(b.core, w);
    var o := Exec.Perform(m, a);
    var length := if IsCompressed(w) then 2 else 4;
    ActionEffect(m, a);
    var e :| Performed(b.core, a, o, e);
    CommitEnds(m, a, o, e, w, length);
    CommitCounts(o, w, length);
    if e.Completes? {
      CompletedIsQuiet(b.core, a, o);
    }
    if Commit(o, w, length).core.stop == Running {
      EffectCallsFor(b, w, e, Commit(o, w, length).core);
    }
  }

  lemma EffectCallsFor(b: Machine, w: bv32, e: Effect, c': Core)
    requires WellFormed(b) && Interrupt(b.core).None? && WordAt(b) == Some(w) && !e.Halts?
    requires var o := Exec.Perform(Fetched(b).0, Decoded(b.core, w));
             && Performed(b.core, Decoded(b.core, w), o, e) && c'.gpr == o.m.core.gpr
             && (e.Completes? ==> !o.m.core.needTrap && c'.csrs == Counted(o.m.core.csrs))
    ensures CalledFor(b, c', EndingOf(Decoded(b.core, w), e, w, if IsCompressed(w) then 2 else 4))
  {
    hide RaiseTrap, Mret, Sret, Completed, Decoded, Exec.Perform, IsCompressed, Interrupt, Mem, FetchedWord;
  }

  lemma InstructionEnds(b: Machine)
    requires WellFormed(b) && CoreOk(b.core) && !b.core.needTrap && b.core.stop == Running
    requires Interrupt(b.core).None?
    ensures EndsWell(b, Instruction(b).core)
  {
    hide RaiseTrap, CoreOk, FetchedWord, Commit, Decoded, Exec.Perform, Performed, Mem, Ends, Interrupt;
    var c := b.core;
    if c.pc % 2 != 0 {
      TrapEnds(b, 0, false, c.pc, 0, 4);
      assert CalledFor(b, Instruction(b).core, TakesTrap(0, false, c.pc));
    } else {
      var (m, reply) := Fetched(b);
      match reply
      case Data(bytes) => WordEnds(b, FetchedWord(bytes));
      case Faulted(f) =>
        if FetchCode(f) != 0 {
          TrapEnds(m, FetchCode(f), false, c.pc, 0, 4);
          assert CalledFor(b, Instruction(b).core, TakesTrap(FetchCode(f), false, c.pc));
        }
      case _ =>
    }
  }

  /**
   * Every step ends with one trap, one return or one retired instruction, as the interrupt chosen,
   * the failed fetch or the word fetched calls for, unless it stops on an assertion other than
   * those against a second trap and a trap without a cause.
   */
  lemma StepEnds(m: Machine, lines: Lines)
    requires Resting(m) && m.core.stop == Running
    ensures EndsWell(Started(m, lines), Step(m, lines).core)
  {
    hide RaiseTrap, Commit, Instruction, CsrsOk, Begin, IntCode, Ends, WordAt, Interrupt;
    var started := Started(m, lines);
    var c := started.core;
    BeginKeeps(m.core, lines);
    BeginRuns(m.core, lines);
    InterruptChoice.InterruptHasCause(c);
    match Interrupt(c)
    case None => InstructionEnds(started);
    case Some(code) =>
      RaiseSets(c, code, true, 0);
      if RaiseTrap(c, code, true, 0).stop == Running {
        TrapEnds(started, code, true, 0, 0, 4);
        assert CalledFor(started, Step(m, lines).core, TakesTrap(code, true, 0));
      }
  }

  lemma BeginRuns(c: Core, lines: Lines)
    ensures Begin(c, lines).stop == c.stop && !Begin(c, lines).needTrap && Begin(c, lines).gpr == c.gpr
    ensures Begin(c, lines).priv == c.nextPriv && Begin(c, lines).nextPriv == c.nextPriv && Begin(c, lines).pc == c.pc
  {
  }
}
