/** A step that takes a trap or returns from one leaves main memory as it was. */
module PreciseTraps {
  import opened Words
  import Bus
  import opened Sv39
  import Sv39Runs
  import opened Privilege
  import opened Decode
  import opened Exec
  import opened CoreInvariant
  import opened StepEndings
  import CoreRuns

  lemma BusFaultKeepsMemory(b: Bus.BusState, c: Context, a: Access, pa: u64, translated: bool)
    ensures var (b', reply) := Sv39.Perform(b, c, a, pa, translated); reply.Faulted? ==> b'.mem == b.mem
  {
    hide AmoResult, AmoOld, FromBytes, Bus.Overwrite;
  }

  lemma FaultKeepsMemory(t: Tlb, b: Bus.BusState, c: Context, a: Access, va: u64)
    requires t.Valid()
    ensures var (_, b', reply) := CachedAccess(t, b, c, a, va); reply.Faulted? ==> b'.mem == b.mem
    ensures var (b', reply) := FreshAccess(b, c, a, va); reply.Faulted? ==> b'.mem == b.mem
    ensures a.Fetch? ==> CachedAccess(t, b, c, a, va).1 == b && FreshAccess(b, c, a, va).0 == b
  {
    hide Sv39.Perform, GetEntry, FreshEntry, Denied, Bare, CrossesPage;
    forall pa: u64, translated
      ensures var (b', reply) := Sv39.Perform(b, c, a, pa, translated); reply.Faulted? ==> b'.mem == b.mem
      ensures a.Fetch? ==> Sv39.Perform(b, c, a, pa, translated).0 == b
    {
      BusFaultKeepsMemory(b, c, a, pa, translated);
      FetchKeepsBus(b, c, a, pa, translated);
    }
  }

  lemma FetchKeepsBus(b: Bus.BusState, c: Context, a: Access, pa: u64, translated: bool)
    ensures a.Fetch? ==> Sv39.Perform(b, c, a, pa, translated).0 == b
  {
  }

  lemma DoKeepsMemory(t: Tlb, b: Bus.BusState, c: Context, a: Access, va: u64)
    requires t.Valid()
    ensures var (_, b', reply) := Sv39Runs.CachedDo(t, b, c, a, va);
            (reply.Faulted? ==> b'.mem == b.mem) && (a.Fetch? ==> b' == b)
    ensures var (b', reply) := Sv39Runs.PlainDo(b, c, a, va);
            (reply.Faulted? ==> b'.mem == b.mem) && (a.Fetch? ==> b' == b)
  {
    hide CachedAccess, FreshAccess;
    FaultKeepsMemory(t, b, c, a, va);
    FaultKeepsMemory(t, b, c, Fetch(2), va);
    if SplitFetch(a, va) {
      var (t1, b1, _) := CachedAccess(t, b, c, Fetch(2), va);
      CachedStaysValid(t, b, c, va);
      FaultKeepsMemory(t1, b, c, Fetch(2), Wrap64(va + 2));
    }
  }

  lemma CachedStaysValid(t: Tlb, b: Bus.BusState, c: Context, va: u64)
    requires t.Valid()
    ensures CachedAccess(t, b, c, Fetch(2), va).0.Valid()
  {
  }

  lemma MemKeepsMemory(m: Machine, a: Access, va: u64)
    requires WellFormed(m)
    ensures var (m', reply) := Mem(m, a, va);
            (reply.Faulted? ==> m'.bus.mem == m.bus.mem) && (a.Fetch? ==> m'.bus == m.bus)
  {
    hide Sv39Runs.CachedDo, Sv39Runs.PlainDo, ContextOf;
    var t := if m.tlb.Some? then m.tlb.value else Tlb(seq(TLB_SIZE, _ => NO_ENTRY), 0);
    DoKeepsMemory(t, m.bus, ContextOf(m.core), a, va);
  }

  const NO_ENTRY := Entry(0, 0, 0, 0, false, false, false, false, false, false, false)

  /** An action that is invalid, or leaves a trap or a return pending, has stored nothing. */
  lemma TrappedActionKeepsMemory(m: Machine, a: Action)
    requires WellFormed(m) && !m.core.needTrap
    ensures var o := Exec.Perform(m, a); o.illegal || o.m.core.needTrap ==> o.m.bus.mem == m.bus.mem
  {
    hide Mem, RaiseTrap, Extend, SetGpr, CsrRead, CsrWrite, CsrPermitted, CsrValue, Mret, Sret, ToBytes;
    match a
    case LoadReg(rd, va, size, signed) =>
      MemKeepsMemory(m, Read(size), va);
      forall v: u64 ensures !SetGpr(Mem(m, Read(size), va).0.core, rd, v).needTrap {
        GprKeepsTrap(m.core, rd, v);
      }
    case StoreMem(va, size, value) => MemKeepsMemory(m, Write(ToBytes(value, size)), va);
    case Atomic(rd, va, size, access) =>
      MemKeepsMemory(m, access, va);
      forall v: u64 ensures !SetGpr(Mem(m, access, va).0.core, rd, v).needTrap {
        GprKeepsTrap(m.core, rd, v);
      }
    case _ =>
  }

  lemma GprKeepsTrap(c: Core, r: RegNo, v: u64)
    requires HasRegs(c)
    ensures SetGpr(c, r, v).needTrap == c.needTrap
  {
  }

  lemma CommitKeepsBus(o: Outcome, w: bv32, length: nat)
    requires WellFormed(o.m)
    ensures Commit(o, w, length).bus == o.m.bus
  {
    hide RaiseTrap;
  }

  lemma ReturnKeepsMemory(m: Machine, a: Action)
    requires WellFormed(m) && (a == ReturnM || a == ReturnS)
    ensures Exec.Perform(m, a).m.bus == m.bus
  {
    hide Mret, Sret;
  }

  lemma FetchedKeepsBus(b: Machine)
    requires WellFormed(b)
    ensures Fetched(b).0.bus == b.bus
  {
    hide Mem;
    MemKeepsMemory(b, Fetch(4), b.core.pc);
  }

  /** The instruction of a step that ends so. */
  lemma InstructionKeepsMemory(b: Machine, e: Ending)
    requires WellFormed(b) && !b.core.needTrap && b.core.stop == Running == Instruction(b).core.stop
    requires CalledFor(b, Instruction(b).core, e) && !e.Retires? && !(e.TakesTrap? && e.interrupt)
    ensures Instruction(b).bus.mem == b.bus.mem
  {
    hide RaiseTrap, Exec.Perform, Mem, Commit, Decoded, FetchedWord, IsCompressed, Interrupt;
    var m := Fetched(b).0;
    FetchedKeepsBus(b);
    match WordAt(b)
    case None =>
      CommitKeepsBus(Next(Raise(b, 0, b.core.pc)), 0, 4);
      if Fetched(b).1.Faulted? {
        CommitKeepsBus(Next(Raise(m, FetchCode(Fetched(b).1.fault), b.core.pc)), 0, 4);
      }
    case Some(w) =>
      var a := Decoded(b.core, w);
      var o := Exec.Perform(m, a);
      CommitKeepsBus(o, w, if IsCompressed(w) then 2 else 4);
      TrappedActionKeepsMemory(m, a);
      match e
      case TakesTrap(code, _, tval) =>
        if !o.illegal {
          CoreRuns.TrapPends(b.core, code, false, tval);
          StoppedStays(o, w, if IsCompressed(w) then 2 else 4);
        }
      case ReturnsFrom(mode) => ReturnKeepsMemory(m, a);
  }

  lemma StoppedStays(o: Outcome, w: bv32, length: nat)
    requires WellFormed(o.m)
    ensures o.m.core.stop != Running ==> Commit(o, w, length).core.stop != Running
  {
  }

  lemma StepKeepsMemory(m: Machine, lines: Lines, e: Ending)
    requires Resting(m) && m.core.stop == Running == Step(m, lines).core.stop && !e.Retires?
    requires CalledFor(Started(m, lines), Step(m, lines).core, e)
    ensures Step(m, lines).bus.mem == m.bus.mem
  {
    hide CoreOk, RaiseTrap, Instruction, Commit, Interrupt, Begin, WordAt, CalledFor, Decoded, Exec.Perform;
    BeginRuns(m.core, lines);
    var b := Started(m, lines);
    InterruptOrNot(b, Step(m, lines).core, e);
    if Interrupt(b.core).Some? {
      CommitKeepsBus(Next(m.(core := PreExec(m.core, lines))), 0, 4);
      CoreRuns.TrapPends(b.core, Interrupt(b.core).value, true, 0);
    } else {
      InstructionKeepsMemory(b, e);
    }
  }

  lemma InterruptOrNot(b: Machine, c': Core, e: Ending)
    requires WellFormed(b) && CalledFor(b, c', e)
    ensures Interrupt(b.core).Some? <==> e.TakesTrap? && e.interrupt
  {
    hide Interrupt, WordAt, Decoded, Exec.Perform, RaiseTrap;
  }

  /** So a trap is precise: neither a register nor a byte of memory shows that its instruction was tried. */
  lemma TrapKeepsMemory(m: Machine, lines: Lines, e: Ending)
    requires Resting(m) && m.core.stop == Running == Step(m, lines).core.stop
    requires Ends(Started(m, lines).core, Step(m, lines).core, e)
    requires CalledFor(Started(m, lines), Step(m, lines).core, e)
    ensures !e.Retires? ==> Step(m, lines).bus.mem == m.bus.mem && Step(m, lines).core.gpr == m.core.gpr
  {
    hide CoreOk, RaiseTrap, Exec.Perform, Mem, Commit, Decoded, FetchedWord, IsCompressed, Interrupt, Begin, Ends, Mret,
      Sret;
    BeginRuns(m.core, lines);
    if !e.Retires? {
      EndsWithRegisters(Started(m, lines).core, Step(m, lines).core, e);
      StepKeepsMemory(m, lines, e);
    }
  }

  lemma EndsWithRegisters(c: Core, c': Core, e: Ending)
    requires Ends(c, c', e) && !e.Retires?
    ensures c'.gpr == c.gpr
  {
    hide MretStatus, SretStatus, Mpp, Spp, Flag;
  }
}
