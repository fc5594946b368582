/** The hart as an object: its registers are fields that the step updates one after another. */
module Rv64Core {
  import opened Words
  import opened Sv39
  import Sv39Runs
  import opened Sv39Mmu
  import opened Privilege
  import opened Decode
  import opened Exec
  import Alu

  class RV64Core {
    const gpr: array<u64>
    const mmu: Mmu
    var currentProgramCounter: u64
    var trapProgramCounter: u64
    var needTrap: bool
    var stop: Stop
    var currentPrivMode: Priv
    var nextPrivMode: Priv
    var csrs: Csrs

    ghost predicate Valid()
      reads this, mmu
    {
      && gpr.Length == 32 && mmu.Valid()
      && mmu.bus.mainMem as object != mmu.tlb
      && gpr as object != mmu.bus.mainMem && gpr as object != mmu.tlb
    }

    ghost function CoreState(): Core
      reads this, gpr
    {
      Core(gpr[..], currentProgramCounter, trapProgramCounter, needTrap, stop, currentPrivMode, nextPrivMode, csrs)
    }

    ghost function State(): Machine
      reads this, gpr, mmu, mmu.tlb, mmu.bus, mmu.bus.mainMem
    {
      Machine(CoreState(), Some(mmu.State()), mmu.bus.State())
    }

    constructor (mmu: Mmu, hartid: nat, pc: u64)
      requires mmu.Valid() && mmu.bus.mainMem as object != mmu.tlb
      ensures Valid() && this.mmu == mmu && fresh(gpr) && CoreState() == Reset(hartid, pc)
    {
      this.mmu := mmu;
      gpr := new u64[32](_ => 0);
      currentProgramCounter, trapProgramCounter, needTrap, stop := pc, 0, false, Running;
      currentPrivMode, nextPrivMode := M, M;
      csrs := Csrs(0, 0, hartid, SetFld(SetFld(0, SXL, 3, 2), UXL, 3, 2), 0, 0, 0, 0, 0x8000_0000_0014_1105, 0,
                   Bank(0, 0, 0, 0, 0, 0), Bank(0, 0, 0, 0, 0, 0));
      new;
      assert gpr[..] == seq(32, _ => 0);
    }

    method SetRegister(r: RegNo, value: u64)
      requires Valid()
      modifies gpr
      ensures Valid() && CoreState() == SetGpr(old(CoreState()), r, value)
    {
      if r != 0 {
        gpr[r] := value;
      }
    }

    // ----- Traps and returns

    method TrapSupervisor(code: nat, interrupt: bool, tval: u64)
      requires code < 64
      modifies this
      ensures CoreState() == TrapToS(old(CoreState()).(needTrap := true), code, interrupt, tval)
    {
      hide SetFld, Fld, TrapTarget, PrivBits;
      csrs := csrs.(s := Trapped(csrs.s, currentProgramCounter, code, interrupt, tval));
      csrs := csrs.(status := SetFld(csrs.status, SPIE, 1, Fld(csrs.status, SIE, 1)));
      csrs := csrs.(status := SetFld(csrs.status, SIE, 1, 0));
      csrs := csrs.(status := SetFld(csrs.status, SPP, 1, PrivBits(currentPrivMode)));
      trapProgramCounter := TrapTarget(csrs.s.tvec, code);
      nextPrivMode := S;
      needTrap := true;
    }

    method TrapMachine(code: nat, interrupt: bool, tval: u64)
      requires code < 64
      modifies this
      ensures CoreState() == TrapToM(old(CoreState()).(needTrap := true), code, interrupt, tval)
    {
      hide SetFld, Fld, TrapTarget, PrivBits;
      csrs := csrs.(m := Trapped(csrs.m, currentProgramCounter, code, interrupt, tval));
      csrs := csrs.(status := SetFld(csrs.status, MPIE, 1, Fld(csrs.status, MIE, 1)));
      csrs := csrs.(status := SetFld(csrs.status, MIE, 1, 0));
      csrs := csrs.(status := SetFld(csrs.status, MPP, 3, PrivBits(currentPrivMode)));
      trapProgramCounter := TrapTarget(csrs.m.tvec, code);
      nextPrivMode := M;
      needTrap := true;
    }

    method DoRaiseTrap(code: nat, interrupt: bool, tval: u64)
      requires code < 64
      modifies this
      ensures CoreState() == RaiseTrap(old(CoreState()), code, interrupt, tval)
    {
      if needTrap {
        stop := SecondTrap;
        return;
      }
      if code == NO_INT {
        stop := NoCause;
        return;
      }
      var toSupervisor := false;
      if currentPrivMode != M {
        toSupervisor := Bit(if interrupt then csrs.mideleg else csrs.medeleg, code);
      }
      if toSupervisor {
        TrapSupervisor(code, interrupt, tval);
      } else {
        TrapMachine(code, interrupt, tval);
      }
      if code == 12 && tval == trapProgramCounter {
        stop := TrapLoop;
      }
    }

    method DoMret() returns (ok: bool)
      modifies this
      ensures ok == Mret(old(CoreState())).Some?
      ensures CoreState() == if ok then Mret(old(CoreState())).value else old(CoreState())
    {
      if currentPrivMode != M {
        return false;
      }
      csrs := csrs.(status := SetFld(csrs.status, MIE, 1, Fld(csrs.status, MPIE, 1)));
      MppKept(old(csrs.status));
      nextPrivMode := Mpp(csrs.status);
      csrs := csrs.(status := SetFld(csrs.status, MPIE, 1, 1));
      if Fld(csrs.status, MPP, 3) != 3 {
        csrs := csrs.(status := SetFld(csrs.status, MPRV, 1, 0));
      }
      csrs := csrs.(status := SetFld(csrs.status, MPP, 3, 0));
      needTrap := true;
      trapProgramCounter := csrs.m.epc;
      ok := true;
    }

    method DoSret() returns (ok: bool)
      modifies this
      ensures ok == Sret(old(CoreState())).Some?
      ensures CoreState() == if ok then Sret(old(CoreState())).value else old(CoreState())
    {
      if Rank(currentPrivMode) < Rank(S) {
        return false;
      }
      if Flag(csrs.status, TSR) {
        return false;
      }
      csrs := csrs.(status := SetFld(csrs.status, SIE, 1, Fld(csrs.status, SPIE, 1)));
      SppKept(old(csrs.status));
      nextPrivMode := Spp(csrs.status);
      csrs := csrs.(status := SetFld(csrs.status, SPIE, 1, 1));
      if Fld(csrs.status, SPP, 1) != 3 {
        csrs := csrs.(status := SetFld(csrs.status, MPRV, 1, 0));
      }
      csrs := csrs.(status := SetFld(csrs.status, SPP, 1, 0));
      needTrap := true;
      trapProgramCounter := csrs.s.epc;
      ok := true;
    }

    /** Samples the interrupt lines and enters the next mode. */
    method DoBegin(lines: Lines)
      modifies this
      ensures CoreState() == Begin(old(CoreState()), lines)
    {
      hide SetFld, BoolBit;
      csrs := csrs.(cycle := Wrap64(csrs.cycle + 1));
      csrs := csrs.(mip := SetFld(csrs.mip, 11, 1, BoolBit(lines.meip)));
      csrs := csrs.(mip := SetFld(csrs.mip, 3, 1, BoolBit(lines.msip)));
      csrs := csrs.(mip := SetFld(csrs.mip, 7, 1, BoolBit(lines.mtip)));
      csrs := csrs.(mip := SetFld(csrs.mip, 9, 1, BoolBit(lines.seip)));
      needTrap := false;
      currentPrivMode := nextPrivMode;
    }

    static method Choose(priv: Priv, mie: bool, sie: bool, bits: bv64, machine: bv64, supervisor: bv64)
      returns (code: Option<nat>)
      ensures code == ChooseAmong(priv, mie, sie, bits, machine, supervisor)
    {
      hide IntCode;
      if IntCode(bits) == NO_INT {
        return None;
      }
      if priv == M {
        return if mie && machine != 0 then Some(IntCode(machine)) else None;
      }
      if supervisor != 0 {
        if Rank(priv) < Rank(S) {
          return Some(IntCode(bits));
        }
        return if sie then Some(IntCode(bits)) else None;
      }
      if Rank(priv) < Rank(M) {
        return Some(IntCode(bits));
      }
      return if mie then Some(IntCode(bits)) else None;
    }

    /** Then takes an interrupt if one is due. */
    method DoPreExec(lines: Lines)
      modifies this
      ensures CoreState() == PreExec(old(CoreState()), lines)
    {
      hide RaiseTrap, Begin, ChooseAmong, NotDelegated, DelegatedOf, Flag, PendingBits;
      DoBegin(lines);
      var bits := PendingBits(csrs);
      var code := Choose(currentPrivMode, Flag(csrs.status, MIE), Flag(csrs.status, SIE),
                         bits, NotDelegated(bits, csrs.mideleg), DelegatedOf(bits, csrs.mideleg));
      if code.Some? {
        DoRaiseTrap(code.value, true, 0);
      }
    }

    // ----- Memory

    /** An access through the memory-management unit; a fetch from an odd halfword takes two. */
    method Memory(a: Access, va: u64) returns (reply: Reply)
      requires Valid()
      modifies mmu, mmu.tlb, mmu.bus, mmu.bus.mainMem
      ensures Valid() && (State(), reply) == Mem(old(State()), a, va)
    {
      var context := ContextOf(Core(gpr[..], currentProgramCounter, trapProgramCounter, needTrap, stop,
                                    currentPrivMode, nextPrivMode, csrs));
      if SplitFetch(a, va) {
        var low := mmu.DoAccess(context, Fetch(2), va);
        if !low.Data? {
          return low;
        }
        var high := mmu.DoAccess(context, Fetch(2), Wrap64(va + 2));
        reply := Sv39Runs.Joined(low, high);
      } else {
        reply := mmu.DoAccess(context, a, va);
      }
    }

    // ----- Control and status registers

    method WriteStatus(data: bv64)
      modifies this
      ensures CoreState() == old(CoreState()).(csrs := old(csrs).(status := WriteMStatus(old(csrs).status, data)))
    {
      hide CopyFld;
      var status := csrs.status;
      status := CopyFld(status, data, SIE, 1);
      status := CopyFld(status, data, MIE, 1);
      status := CopyFld(status, data, SPIE, 1);
      status := CopyFld(status, data, MPIE, 1);
      status := CopyFld(status, data, SPP, 1);
      status := CopyFld(status, data, MPP, 3);
      status := CopyFld(status, data, MPRV, 1);
      status := CopyFld(status, data, SUM, 1);
      status := CopyFld(status, data, MXR, 1);
      status := CopyFld(status, data, TVM, 1);
      status := CopyFld(status, data, TW, 1);
      status := CopyFld(status, data, TSR, 1);
      csrs := csrs.(status := status);
    }

    method WriteSupervisorStatus(data: bv64)
      modifies this
      ensures CoreState() == old(CoreState()).(csrs := old(csrs).(status := WriteSStatus(old(csrs).status, data)))
    {
      hide CopyFld;
      var status := csrs.status;
      status := CopyFld(status, data, SIE, 1);
      status := CopyFld(status, data, SPIE, 1);
      status := CopyFld(status, data, SPP, 1);
      status := CopyFld(status, data, SUM, 1);
      status := CopyFld(status, data, MXR, 1);
      csrs := csrs.(status := status);
    }

    method StoreBits(csr: Csr, bits: bv64)
      requires IsBits(csr)
      modifies this
      ensures CoreState() == old(CoreState()).(csrs := WriteBits(old(csrs), csr, bits))
    {
      hide WriteMStatus, WriteSStatus, Legal, Merged;
      match csr
      case MStatus => WriteStatus(bits);
      case SStatus => WriteSupervisorStatus(bits);
      case Medeleg => csrs := csrs.(medeleg := Legal(bits, S_EXC_MASK));
      case Mideleg => csrs := csrs.(mideleg := Legal(bits, S_INT_MASK));
      case Mie => csrs := csrs.(mie := Legal(bits, M_INT_MASK));
      case Mip => csrs := csrs.(mip := Legal(bits, M_INT_MASK));
      case Sie => csrs := csrs.(mie := Merged(csrs.mie, bits));
      case Sip => csrs := csrs.(mip := Merged(csrs.mip, bits));
    }

    method StoreMachineBank(csr: Csr, data: u64, bits: bv64)
      requires IsMachineBank(csr)
      modifies this
      ensures CoreState() ==
              match WriteMachineBank(old(csrs).m, csr, data, bits)
              case Some(bank) => old(CoreState()).(csrs := old(csrs).(m := bank))
              case None => old(CoreState()).(stop := Unexpected)
    {
      hide Word, Legal;
      var bank := csrs.m;
      match csr {
        case Mtvec =>
          if data % 4 > 1 {
            stop := Unexpected;
            return;
          }
          bank := bank.(tvec := data);
        case Mcounteren => bank := bank.(counteren := Word(Legal(bits, COUNTER_MASK)));
        case Mscratch => bank := bank.(scratch := data);
        case Mepc => bank := bank.(epc := data);
        case Mcause => bank := bank.(cause := data);
        case Mtval => bank := bank.(tval := data);
      }
      csrs := csrs.(m := bank);
    }

    method StoreSupervisorBank(csr: Csr, data: u64, bits: bv64)
      requires IsSupervisorBank(csr)
      modifies this
      ensures CoreState() ==
              old(CoreState()).(csrs := old(csrs).(s := WriteSupervisorBank(old(csrs).s, csr, data, bits)))
    {
      hide Word, Legal;
      var bank := csrs.s;
      match csr {
        case Stvec => bank := bank.(tvec := if data % 4 > 1 then data - data % 4 else data);
        case Scounteren => bank := bank.(counteren := Word(Legal(bits, COUNTER_MASK)));
        case Sscratch => bank := bank.(scratch := data);
        case Sepc => bank := bank.(epc := data);
        case Scause => bank := bank.(cause := data);
        case Stval => bank := bank.(tval := data);
      }
      csrs := csrs.(s := bank);
    }

    method StoreOther(csr: Csr, data: u64) returns (ok: bool)
      modifies this
      ensures var w := WriteOther(old(csrs), old(currentPrivMode), csr, data);
              CoreState() == Updated(old(CoreState()), w) && ok == !w.IllegalWrite?
    {
      hide Flag, LegalSatp;
      ok := true;
      if csr.Satp? {
        if currentPrivMode == S && Flag(csrs.status, TVM) {
          return false;
        }
        csrs := csrs.(satp := LegalSatp(data));
      } else if csr.Mcycle? {
        csrs := csrs.(cycle := data);
      } else {
        ok := csr.Misa? || csr.Tselect? || csr.Tdata1? || csr.Time?;
      }
    }

    method DoCsrWrite(index: nat, data: u64) returns (ok: bool)
      modifies this
      ensures var w := CsrWrite(old(csrs), old(currentPrivMode), index, data);
              CoreState() == Updated(old(CoreState()), w) && ok == !w.IllegalWrite?
    {
      hide WriteBits, WriteMachineBank, WriteSupervisorBank, WriteOther, Bits, DecodeCsr;
      var csr, bits := DecodeCsr(index), Bits(data);
      ok := true;
      if IsBits(csr) {
        StoreBits(csr, bits);
      } else if IsMachineBank(csr) {
        StoreMachineBank(csr, data, bits);
      } else if IsSupervisorBank(csr) {
        StoreSupervisorBank(csr, data, bits);
      } else {
        ok := StoreOther(csr, data);
      }
    }

    // ----- Instructions

    method LoadRegister(rd: RegNo, va: u64, size: Size, signed: bool)
      requires Valid()
      modifies this, gpr, mmu, mmu.tlb, mmu.bus, mmu.bus.mainMem
      ensures Valid() && State() == DoLoad(old(State()), rd, va, size, signed)
    {
      hide Mem, RaiseTrap, Extend;
      if va % size != 0 {
        DoRaiseTrap(4, false, va);
        return;
      }
      var reply := Memory(Read(size), va);
      match reply
      case Data(bytes) => SetRegister(rd, Extend(bytes, size, signed));
      case Faulted(f) => DoRaiseTrap(LoadCode(f), false, va);
      case _ => stop := Unexpected;
    }

    method StoreMemory(va: u64, size: Size, value: u64)
      requires Valid()
      modifies this, gpr, mmu, mmu.tlb, mmu.bus, mmu.bus.mainMem
      ensures Valid() && State() == DoStore(old(State()), va, size, value)
    {
      hide Mem, RaiseTrap, ToBytes;
      if va % size != 0 {
        DoRaiseTrap(6, false, va);
        return;
      }
      var reply := Memory(Write(ToBytes(value, size)), va);
      match reply
      case Stored =>
      case Faulted(f) => DoRaiseTrap(StoreCode(f), false, va);
      case _ => stop := Unexpected;
    }

    method AtomicMemory(rd: RegNo, va: u64, size: Size, access: Access)
      requires Valid()
      modifies this, gpr, mmu, mmu.tlb, mmu.bus, mmu.bus.mainMem
      ensures Valid() && State() == DoAtomic(old(State()), rd, va, size, access)
    {
      hide Mem, RaiseTrap, Extend;
      var reply := Memory(access, va);
      match reply
      case Data(bytes) => SetRegister(rd, Extend(bytes, size, true));
      case Conditional(failed) => SetRegister(rd, if failed then 1 else 0);
      case Prior(prior) => SetRegister(rd, prior);
      case Faulted(f) => DoRaiseTrap(StoreCode(f), false, va);
      case _ => stop := Unexpected;
    }

    method CsrInstruction(rd: RegNo, index: nat, f: bv32, operand: u64, write: bool) returns (illegal: bool)
      requires Valid() && stop == Running
      modifies this, gpr
      ensures Valid() && Outcome(State(), false, illegal) == DoCsr(old(State()), rd, index, f, operand, write)
    {
      hide CsrPermitted, CsrRead, CsrWrite, CsrValue;
      if !CsrPermitted(currentPrivMode, index, write) {
        return true;
      }
      var prior := CsrRead(csrs, currentPrivMode, index);
      if prior.None? {
        return true;
      }
      if write {
        var ok := DoCsrWrite(index, CsrValue(f, prior.value, operand));
        if !ok {
          return true;
        }
      }
      if stop == Running {
        SetRegister(rd, prior.value);
      }
      illegal := false;
    }

    method JumpInstruction(a: Action) returns (jumped: bool)
      requires Valid() && (a.JumpTo? || a.JumpAndLink? || a.GoTo?)
      modifies this, gpr
      ensures Valid() && Outcome(State(), jumped, false) == Exec.Perform(old(State()), a)
    {
      hide RaiseTrap;
      jumped := true;
      match a
      case JumpTo(target) =>
        if target % 2 != 0 {
          DoRaiseTrap(0, false, target);
        } else {
          currentProgramCounter := target;
        }
      case JumpAndLink(rd, link, target) =>
        if target % 2 != 0 {
          DoRaiseTrap(0, false, target);
          jumped := false;
        } else {
          SetRegister(rd, link);
          currentProgramCounter := target;
        }
      case GoTo(target) => currentProgramCounter := target;
    }

    method SystemInstruction(a: Action) returns (illegal: bool)
      requires Valid() && (a.ReturnM? || a.ReturnS? || a.FenceVma?)
      modifies this, mmu.tlb
      ensures Valid() && Outcome(State(), false, illegal) == Exec.Perform(old(State()), a)
    {
      hide Mret, Sret, SfencePermitted, Flush;
      match a
      case ReturnM =>
        var ok := DoMret();
        illegal := !ok;
      case ReturnS =>
        var ok := DoSret();
        illegal := !ok;
      case FenceVma(vaddr, asid) =>
        illegal := !SfencePermitted(Core(gpr[..], currentProgramCounter, trapProgramCounter, needTrap, stop,
                                         currentPrivMode, nextPrivMode, csrs));
        if !illegal {
          mmu.SfenceVma(vaddr, asid);
        }
    }

    method Execute(a: Action) returns (jumped: bool, illegal: bool)
      requires Valid() && stop == Running
      modifies this, gpr, mmu, mmu.tlb, mmu.bus, mmu.bus.mainMem
      ensures Valid() && Outcome(State(), jumped, illegal) == Exec.Perform(old(State()), a)
    {
      hide DoLoad, DoStore, DoAtomic, DoCsr, RaiseTrap, SetGpr, Alu.Exec, Mret, Sret, SfencePermitted, Flush;
      jumped, illegal := false, false;
      match a
      case Nothing =>
      case IllegalInstruction => illegal := true;
      case SetReg(rd, value) => SetRegister(rd, value);
      case Compute(rd, x, y, op, op32) => SetRegister(rd, Alu.Exec(x, y, op, op32));
      case LoadReg(rd, va, size, signed) => LoadRegister(rd, va, size, signed);
      case StoreMem(va, size, value) => StoreMemory(va, size, value);
      case Atomic(rd, va, size, access) => AtomicMemory(rd, va, size, access);
      case Trap(code) => DoRaiseTrap(code, false, 0);
      case CsrOp(rd, index, f, operand, write) => illegal := CsrInstruction(rd, index, f, operand, write);
      case ReturnM => illegal := SystemInstruction(a);
      case ReturnS => illegal := SystemInstruction(a);
      case FenceVma(_, _) => illegal := SystemInstruction(a);
      case _ => jumped := JumpInstruction(a);
    }

    // ----- The step

    method DoCommit(jumped: bool, illegal: bool, w: bv32, length: nat)
      requires Valid()
      modifies this
      ensures Valid() && State() == Commit(Outcome(old(State()), jumped, illegal), w, length)
    {
      hide RaiseTrap, Word;
      if stop != Running {
        return;
      }
      if illegal {
        DoRaiseTrap(2, false, Word(w as bv64));
        if stop != Running {
          return;
        }
      }
      if needTrap {
        currentProgramCounter := trapProgramCounter;
      } else if !jumped {
        currentProgramCounter := Wrap64(currentProgramCounter + length);
      }
      if !needTrap {
        csrs := csrs.(minstret := Wrap64(csrs.minstret + 1));
      }
      needTrap := false;
    }

    method ExecuteWord(w: bv32)
      requires Valid() && stop == Running
      modifies this, gpr, mmu, mmu.tlb, mmu.bus, mmu.bus.mainMem
      ensures Valid() && State() == Commit(Exec.Execute(old(State()), w), w, if IsCompressed(w) then 2 else 4)
    {
      hide Commit, Exec.Perform, DecodeC, Decode32, IsCompressed;
      var core := Core(gpr[..], currentProgramCounter, trapProgramCounter, needTrap, stop,
                       currentPrivMode, nextPrivMode, csrs);
      var compressed := IsCompressed(w);
      var jumped, illegal := Execute(if compressed then DecodeC(core, w) else Decode32(core, w));
      DoCommit(jumped, illegal, w, if compressed then 2 else 4);
    }

    /** A trap raised before an instruction is known. */
    method TrapOnFetch(code: nat)
      requires Valid() && code < 64
      modifies this
      ensures Valid() && State() == Commit(Next(Raise(old(State()), code, old(currentProgramCounter))), 0, 4)
    {
      hide Commit, RaiseTrap;
      DoRaiseTrap(code, false, currentProgramCounter);
      DoCommit(false, false, 0, 4);
    }

    /** Fetch, decode and execute, when no interrupt is taken. */
    method RunInstruction()
      requires Valid() && stop == Running
      modifies this, gpr, mmu, mmu.tlb, mmu.bus, mmu.bus.mainMem
      ensures Valid() && State() == Instruction(old(State()))
    {
      hide Commit, Exec.Execute, IsCompressed, Mem, Raise, FetchedWord;
      if currentProgramCounter % 2 != 0 {
        TrapOnFetch(0);
        return;
      }
      var reply := Memory(Fetch(4), currentProgramCounter);
      match reply
      case Data(bytes) => ExecuteWord(FetchedWord(bytes));
      case Faulted(f) =>
        if FetchCode(f) == 0 {
          stop := Unexpected;
        } else {
          TrapOnFetch(FetchCode(f));
        }
      case _ => stop := Unexpected;
    }

    method DoStep(lines: Lines)
      requires Valid()
      modifies this, gpr, mmu, mmu.tlb, mmu.bus, mmu.bus.mainMem
      ensures Valid() && State() == Step(old(State()), lines)
    {
      hide PreExec, Commit, Instruction;
      if stop != Running {
        return;
      }
      DoPreExec(lines);
      if stop != Running {
        return;
      }
      if needTrap {
        DoCommit(false, false, 0, 4);
      } else {
        RunInstruction();
      }
    }
  }

  /** The hart after a CSR write that was not illegal. */
  function Updated(c: Core, w: Written): Core {
    match w
    case Written(csrs) => c.(csrs := csrs)
    case WriteStops => c.(stop := Unexpected)
    case IllegalWrite => c
  }

  lemma MppKept(status: bv64)
    ensures Mpp(SetFld(status, MIE, 1, Fld(status, MPIE, 1))) == Mpp(status)
  {
    FieldKept(status, Fld(status, MPIE, 1));
  }

  lemma SppKept(status: bv64)
    ensures Spp(SetFld(status, SIE, 1, Fld(status, SPIE, 1))) == Spp(status)
  {
    FieldKept(status, Fld(status, SPIE, 1));
  }

  lemma FieldKept(status: bv64, v: bv64)
    ensures Fld(SetFld(status, MIE, 1, v), MPP, 3) == Fld(status, MPP, 3)
    ensures Fld(SetFld(status, SIE, 1, v), SPP, 1) == Fld(status, SPP, 1)
  {
  }
}
