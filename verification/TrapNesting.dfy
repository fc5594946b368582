/**
 * Traps and returns nest (section 3.3.2 of the Privileged ISA): in runs of the hart, a supervisor
 * handler that is itself interrupted by machine-mode traps, any number of times, returns to where
 * it was called.
 */
module TrapNesting {
  import opened Words
  import opened Sv39
  import opened Privilege
  import opened StatusWord
  import opened Decode
  import opened Exec
  import opened StepEndings
  import opened CoreRuns

  // ----- What a handler leaves alone

  /** What supervisor mode needs to return. */
  predicate KeepsReturnS(c: Core, c': Core) {
    && c'.csrs.s.epc == c.csrs.s.epc
    && Flag(c'.csrs.status, SPIE) == Flag(c.csrs.status, SPIE)
    && Spp(c'.csrs.status) == Spp(c.csrs.status)
  }

  /** The trap registers and the status fields of supervisor mode. */
  predicate KeepsSupervisor(c: Core, c': Core) {
    && c'.csrs.s == c.csrs.s
    && c'.csrs.status & S_TRAP == c.csrs.status & S_TRAP
  }

  /** A machine-mode handler keeps what it needs to return, and supervisor mode's trap state. */
  predicate KeepsReturnM(c: Core, c': Core) {
    && c'.csrs.m.epc == c.csrs.m.epc
    && Flag(c'.csrs.status, MPIE) == Flag(c.csrs.status, MPIE)
    && Mpp(c'.csrs.status) == Mpp(c.csrs.status)
    && KeepsSupervisor(c, c')
  }

  // ----- The steps that trap and return

  /** The step takes this trap. */
  ghost predicate Traps(m: Machine, lines: Lines, code: nat, interrupt: bool, tval: u64)
    requires WellFormed(m)
  {
    && m.core.stop == Running == Step(m, lines).core.stop
    && Ends(Started(m, lines).core, Step(m, lines).core, TakesTrap(code, interrupt, tval))
  }

  /** The step executes mret or sret where it is allowed, and no interrupt comes before it. */
  predicate Returns(m: Machine, lines: Lines, a: Action)
    requires WellFormed(m)
  {
    && m.core.stop == Running && Executed(m, lines) == Some(a)
    && (|| (a == ReturnM && m.core.nextPriv == M)
        || (a == ReturnS && m.core.nextPriv == S && !Flag(m.core.csrs.status, TSR)))
  }

  lemma ReturnStep(m: Machine, lines: Lines, a: Action)
    requires WellFormed(m) && Returns(m, lines, a)
    ensures var c := Started(m, lines).core;
            && (a == ReturnM ==> Mret(c).Some? && Step(m, lines).core == Settled(Mret(c).value))
            && (a == ReturnS ==> Sret(c).Some? && Step(m, lines).core == Settled(Sret(c).value))
  {
    hide Decoded, FetchedWord, IsCompressed, Interrupt, Mem, MretStatus, SretStatus, Mpp, Spp, Flag, SetLines;
    BeginRuns(m.core, lines);
  }

  lemma TrapToMRecords(m: Machine, lines: Lines, code: nat, interrupt: bool, tval: u64)
    requires WellFormed(m) && Traps(m, lines, code, interrupt, tval)
    requires !Delegated(Started(m, lines).core, code, interrupt)
    ensures var c, t := m.core, Step(m, lines).core;
            && t.nextPriv == M && t.csrs.m.epc == c.pc && t.csrs.s == c.csrs.s
            && t.csrs.status == TrapMStatus(c.csrs.status, PrivBits(c.nextPriv))
  {
    hide Step, TrapMStatus, TrapSStatus, TrapTarget, PrivBits, Bit, Delegated, SetLines;
    BeginRuns(m.core, lines);
  }

  lemma TrapToSRecords(m: Machine, lines: Lines, code: nat, interrupt: bool, tval: u64)
    requires WellFormed(m) && Traps(m, lines, code, interrupt, tval)
    requires Delegated(Started(m, lines).core, code, interrupt)
    ensures var c, t := m.core, Step(m, lines).core;
            && t.nextPriv == S && t.csrs.s.epc == c.pc && t.csrs.m == c.csrs.m
            && t.csrs.status == TrapSStatus(c.csrs.status, PrivBits(c.nextPriv))
  {
    hide Step, TrapMStatus, TrapSStatus, TrapTarget, PrivBits, Bit, Delegated, SetLines;
    BeginRuns(m.core, lines);
  }

  lemma MretRestores(m: Machine, lines: Lines)
    requires WellFormed(m) && Returns(m, lines, ReturnM)
    ensures var c, r := m.core, Step(m, lines).core;
            && r.pc == c.csrs.m.epc && r.nextPriv == Mpp(c.csrs.status) && r.csrs.s == c.csrs.s
            && r.csrs.status == MretStatus(c.csrs.status) && r.stop == Running
  {
    hide Step, MretStatus, Mpp, SetLines, Executed;
    BeginRuns(m.core, lines);
    ReturnStep(m, lines, ReturnM);
  }

  lemma SretRestores(m: Machine, lines: Lines)
    requires WellFormed(m) && Returns(m, lines, ReturnS)
    ensures var c, r := m.core, Step(m, lines).core;
            && r.pc == c.csrs.s.epc && r.nextPriv == Spp(c.csrs.status)
            && r.csrs.status == SretStatus(c.csrs.status) && r.stop == Running
  {
    hide Step, SretStatus, Spp, Flag, SetLines, Executed;
    BeginRuns(m.core, lines);
    ReturnStep(m, lines, ReturnS);
  }

  lemma SupervisorBitsKept(status: bv64, s: bv64)
    requires s & !(M_TRAP | MPRV_BIT) == status & !(M_TRAP | MPRV_BIT)
    ensures s & S_TRAP == status & S_TRAP
  {
  }

  lemma SupervisorFields(status: bv64, s: bv64)
    requires s & S_TRAP == status & S_TRAP
    ensures Flag(s, SIE) == Flag(status, SIE) && Flag(s, SPIE) == Flag(status, SPIE) && Spp(s) == Spp(status)
  {
  }

  lemma TrapMStatusFacts(status: bv64, p: Priv)
    ensures var s := TrapMStatus(status, PrivBits(p));
            Flag(s, MPIE) == Flag(status, MIE) && Mpp(s) == p && s & S_TRAP == status & S_TRAP
  {
    hide TrapMStatus, PrivBits, PrivOf, Flag, Fld;
    PrivFits(p);
    TrapMFlags(status, PrivBits(p));
    TrapMPrivilege(status, PrivBits(p));
    TrapMFrame(status, PrivBits(p));
    TrapMKeepsS(status, TrapMStatus(status, PrivBits(p)));
  }

  lemma TrapMKeepsS(status: bv64, s: bv64)
    requires s & !M_TRAP == status & !M_TRAP
    ensures s & S_TRAP == status & S_TRAP
  {
  }

  lemma TrapSStatusFacts(status: bv64, p: Priv)
    ensures var s := TrapSStatus(status, PrivBits(p));
            Flag(s, SPIE) == Flag(status, SIE) && (Spp(s) == p <==> p == U || p == S)
  {
    hide TrapSStatus, Flag, Fld;
    TrapSFlags(status, PrivBits(p));
    TrapSPrivilege(status, PrivBits(p));
  }

  // ----- One trap to machine mode and back

  /** Steps: one that traps to machine mode, those of the handler, and its mret. */
  datatype Excursion = Excursion(trap: Lines, handler: seq<Lines>, ret: Lines)

  /** The machine when the handler is about to return. */
  function AtMret(m: Machine, x: Excursion): (m': Machine)
    requires WellFormed(m)
    ensures WellFormed(m')
  {
    Run(Step(m, x.trap), x.handler)
  }

  function AfterExcursion(m: Machine, x: Excursion): (m': Machine)
    requires WellFormed(m)
    ensures WellFormed(m')
  {
    Step(AtMret(m, x), x.ret)
  }

  /** Whatever the handler does, when it returns the fields it found are what they were. */
  ghost predicate Excurses(m: Machine, x: Excursion)
    requires WellFormed(m)
  {
    && (exists code, interrupt, tval ::
          Traps(m, x.trap, code, interrupt, tval) && !Delegated(Started(m, x.trap).core, code, interrupt))
    && KeepsReturnM(Step(m, x.trap).core, AtMret(m, x).core)
    && Returns(AtMret(m, x), x.ret, ReturnM)
  }

  /**
   * The excursion resumes where it left: counter, mode and interrupt enable are those before the
   * trap, and no trap state of supervisor mode has changed.
   */
  lemma ExcursionResumes(m: Machine, x: Excursion)
    requires WellFormed(m) && Excurses(m, x)
    ensures var c, c' := m.core, AfterExcursion(m, x).core;
            && c'.pc == c.pc && c'.nextPriv == c.nextPriv && c'.stop == Running
            && Flag(c'.csrs.status, MIE) == Flag(c.csrs.status, MIE)
            && KeepsSupervisor(c, c')
  {
    hide Step, Run, TrapMStatus, PrivBits, MretStatus, Mpp, Flag, Delegated, Spp, Returns, RaiseTrap;
    var code, interrupt, tval :|
      Traps(m, x.trap, code, interrupt, tval) && !Delegated(Started(m, x.trap).core, code, interrupt);
    TrapToMRecords(m, x.trap, code, interrupt, tval);
    TrapMStatusFacts(m.core.csrs.status, m.core.nextPriv);
    var back := AtMret(m, x);
    MretRestores(back, x.ret);
    MretFlags(back.core.csrs.status);
    MretFrame(back.core.csrs.status);
    SupervisorBitsKept(back.core.csrs.status, MretStatus(back.core.csrs.status));
  }

  // ----- A supervisor handler, interrupted any number of times

  /** A piece of the handler: steps of its own, or an excursion to machine mode. */
  datatype Piece = Own(lines: seq<Lines>) | Away(x: Excursion)

  function AfterPiece(m: Machine, p: Piece): (m': Machine)
    requires WellFormed(m)
    ensures WellFormed(m')
  {
    match p
    case Own(lines) => Run(m, lines)
    case Away(x) => AfterExcursion(m, x)
  }

  ghost predicate Handles(m: Machine, p: Piece)
    requires WellFormed(m)
  {
    match p
    case Own(lines) =>
      var m' := Run(m, lines);
      KeepsReturnS(m.core, m'.core) && m'.core.nextPriv == m.core.nextPriv && m'.core.stop == Running
    case Away(x) => Excurses(m, x)
  }

  function AfterPieces(m: Machine, ps: seq<Piece>): (m': Machine)
    requires WellFormed(m)
    ensures WellFormed(m')
    decreases |ps|
  {
    if ps == [] then m else AfterPieces(AfterPiece(m, ps[0]), ps[1..])
  }

  ghost predicate HandlesAll(m: Machine, ps: seq<Piece>)
    requires WellFormed(m)
    decreases |ps|
  {
    ps == [] || (Handles(m, ps[0]) && HandlesAll(AfterPiece(m, ps[0]), ps[1..]))
  }

  lemma PieceKeeps(m: Machine, p: Piece)
    requires WellFormed(m) && Handles(m, p)
    ensures var m' := AfterPiece(m, p);
            KeepsReturnS(m.core, m'.core) && m'.core.nextPriv == m.core.nextPriv && m'.core.stop == Running
  {
    hide Flag, Spp, Excurses, Run, AfterExcursion;
    if p.Away? {
      ExcursionResumes(m, p.x);
      SupervisorFields(m.core.csrs.status, AfterExcursion(m, p.x).core.csrs.status);
    }
  }

  lemma {:induction false} HandlerKeeps(m: Machine, ps: seq<Piece>)
    requires WellFormed(m) && m.core.stop == Running && HandlesAll(m, ps)
    ensures var m' := AfterPieces(m, ps);
            KeepsReturnS(m.core, m'.core) && m'.core.nextPriv == m.core.nextPriv && m'.core.stop == Running
    decreases |ps|
  {
    hide Handles, AfterPiece, Flag, Spp;
    if ps != [] {
      PieceKeeps(m, ps[0]);
      HandlerKeeps(AfterPiece(m, ps[0]), ps[1..]);
    }
  }

  /**
   * A step that traps to supervisor mode, a handler that leaves its saved fields alone and is
   * interrupted by machine-mode traps any number of times, and sret: the hart is back at the
   * trapped instruction with the interrupt enable it had, and in the mode it had exactly when that
   * mode fits in SPP.
   */
  lemma NestedReturn(m: Machine, trap: Lines, code: nat, interrupt: bool, tval: u64, ps: seq<Piece>, ret: Lines)
    requires WellFormed(m) && Traps(m, trap, code, interrupt, tval)
    requires Delegated(Started(m, trap).core, code, interrupt)
    requires HandlesAll(Step(m, trap), ps)
    requires Executed(AfterPieces(Step(m, trap), ps), ret) == Some(ReturnS)
    requires !Flag(AfterPieces(Step(m, trap), ps).core.csrs.status, TSR)
    ensures var c, r := m.core, Step(AfterPieces(Step(m, trap), ps), ret).core;
            && r.pc == c.pc && r.stop == Running
            && Flag(r.csrs.status, SIE) == Flag(c.csrs.status, SIE)
            && (r.nextPriv == c.nextPriv <==> c.nextPriv == U || c.nextPriv == S)
  {
    hide Step, TrapSStatus, PrivBits, SretStatus, Spp, Flag, Delegated, Started, Ends, HandlesAll, AfterPieces,
      Executed;
    TrapToSRecords(m, trap, code, interrupt, tval);
    TrapSStatusFacts(m.core.csrs.status, m.core.nextPriv);
    HandlerKeeps(Step(m, trap), ps);
    var last := AfterPieces(Step(m, trap), ps);
    SretRestores(last, ret);
    SretFlags(last.core.csrs.status);
  }
}
