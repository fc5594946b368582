/** Execution: one step of one hart, from the interrupt check to the commit of the counter. */
module Exec {
  import opened Words
  import opened Bus
  import opened Sv39
  import opened Privilege
  import opened Decode
  import Sv39Runs
  import Alu

  /** A machine without a cache walks the tables at every access. */
  datatype Machine = Machine(core: Core, tlb: Option<Tlb>, bus: BusState)

  predicate TlbOk(tlb: Option<Tlb>) {
    tlb.Some? ==> tlb.value.Valid()
  }

  predicate WellFormed(m: Machine) {
    HasRegs(m.core) && TlbOk(m.tlb)
  }

  /** Effect of an instruction before the program counter is committed. */
  datatype Outcome = Outcome(m: Machine, jumped: bool, illegal: bool)

  function Next(m: Machine): Outcome { Outcome(m, false, false) }
  function Illegal(m: Machine): Outcome { Outcome(m, false, true) }

  function SetGpr(c: Core, r: RegNo, value: u64): (c': Core)
    requires HasRegs(c)
    ensures HasRegs(c')
  {
    if r == 0 then c else c.(gpr := c.gpr[r := value])
  }

  function WriteReg(m: Machine, r: RegNo, value: u64): (m': Machine)
    requires WellFormed(m)
    ensures WellFormed(m')
  {
    m.(core := SetGpr(m.core, r, value))
  }

  function Raise(m: Machine, code: nat, tval: u64): (m': Machine)
    requires WellFormed(m) && code < 64
    ensures WellFormed(m')
  {
    m.(core := RaiseTrap(m.core, code, false, tval))
  }

  function Halt(m: Machine): Machine {
    m.(core := m.core.(stop := Unexpected))
  }

  function LoadCode(f: Fault): Exception {
    match f case AccessFault => 5 case Misaligned => 4 case PageFault => 13
  }

  function StoreCode(f: Fault): Exception {
    match f case AccessFault => 7 case Misaligned => 6 case PageFault => 15
  }

  /** A misaligned fetch has no cause of its own: the emulator asserts that it cannot happen. */
  function FetchCode(f: Fault): Exception {
    match f case AccessFault => 1 case Misaligned => 0 case PageFault => 12
  }

  /** One access through the memory-management unit. */
  function Mem(m: Machine, a: Access, va: u64): (r: (Machine, Reply))
    requires WellFormed(m)
    ensures WellFormed(r.0) && r.0.core == m.core
  {
    match m.tlb
    case Some(t) =>
      var (t', b, reply) := Sv39Runs.CachedDo(t, m.bus, ContextOf(m.core), a, va);
      (m.(tlb := Some(t'), bus := b), reply)
    case None =>
      var (b, reply) := Sv39Runs.PlainDo(m.bus, ContextOf(m.core), a, va);
      (m.(bus := b), reply)
  }

  /** A loaded value of `size` bytes, sign- or zero-extended. */
  function Extend(bytes: seq<byte>, size: Size, signed: bool): u64 {
    var v := FromBytes(bytes);
    Wrap64(if !signed || size == 8 then v
           else if size == 4 then Signed32(v)
           else if size == 2 then (if v % 0x1_0000 < 0x8000 then v % 0x1_0000 else v % 0x1_0000 - 0x1_0000)
           else (if v % 0x100 < 0x80 then v % 0x100 else v % 0x100 - 0x100))
  }

  function DoLoad(m: Machine, rd: RegNo, va: u64, size: Size, signed: bool): (r: Machine)
    requires WellFormed(m)
    ensures WellFormed(r)
  {
    if va % size != 0 then Raise(m, 4, va) else
    var (m', reply) := Mem(m, Read(size), va);
    match reply
    case Data(bytes) => WriteReg(m', rd, Extend(bytes, size, signed))
    case Faulted(f) => Raise(m', LoadCode(f), va)
    case _ => Halt(m')
  }

  function DoStore(m: Machine, va: u64, size: Size, value: u64): (r: Machine)
    requires WellFormed(m)
    ensures WellFormed(r)
  {
    if va % size != 0 then Raise(m, 6, va) else
    var (m', reply) := Mem(m, Write(ToBytes(value, size)), va);
    match reply
    case Stored => m'
    case Faulted(f) => Raise(m', StoreCode(f), va)
    case _ => Halt(m')
  }

  function DoAtomic(m: Machine, rd: RegNo, va: u64, size: Size, access: Access): (r: Machine)
    requires WellFormed(m)
    ensures WellFormed(r)
  {
    var (m', reply) := Mem(m, access, va);
    match reply
    case Data(bytes) => WriteReg(m', rd, Extend(bytes, size, true))
    case Conditional(failed) => WriteReg(m', rd, if failed then 1 else 0)
    case Prior(prior) => WriteReg(m', rd, prior)
    case Faulted(f) => Raise(m', StoreCode(f), va)
    case _ => Halt(m')
  }

  /** Value a CSR instruction writes: the operand, or the old value with bits set or cleared. */
  function CsrValue(f: bv32, prior: u64, operand: u64): u64 {
    if f == 1 || f == 5 then operand
    else if f == 2 || f == 6 then Or(prior, operand)
    else And(prior, Not(operand))
  }

  function CsrUpdate(c: Core, index: nat, value: u64, write: bool): Written {
    if write then CsrWrite(c.csrs, c.priv, index, value) else Written(c.csrs)
  }

  function DoCsr(m: Machine, rd: RegNo, index: nat, f: bv32, operand: u64, write: bool): (o: Outcome)
    requires WellFormed(m)
    ensures WellFormed(o.m)
  {
    if !CsrPermitted(m.core.priv, index, write) then Illegal(m) else
    match CsrRead(m.core.csrs, m.core.priv, index)
    case None => Illegal(m)
    case Some(prior) =>
      match CsrUpdate(m.core, index, CsrValue(f, prior, operand), write)
      case IllegalWrite => Illegal(m)
      case WriteStops => Next(Halt(m))
      case Written(csrs) => Next(m.(core := SetGpr(m.core.(csrs := csrs), rd, prior)))
  }

  function OrIllegal(m: Machine, c: Option<Core>): Outcome {
    match c
    case None => Illegal(m)
    case Some(core) => Next(m.(core := core))
  }

  function Jump(m: Machine, target: u64): Outcome {
    Outcome(m.(core := m.core.(pc := target)), true, false)
  }

  function FlushTlb(m: Machine, vaddr: u64, asid: nat): Machine {
    match m.tlb
    case Some(t) => m.(tlb := Some(Flush(t, vaddr, asid)))
    case None => m
  }

  function Perform(m: Machine, a: Action): (o: Outcome)
    requires WellFormed(m)
    ensures WellFormed(o.m)
  {
    match a
    case Nothing => Next(m)
    case IllegalInstruction => Illegal(m)
    case SetReg(rd, value) => Next(WriteReg(m, rd, value))
    case Compute(rd, x, y, op, op32) => Next(WriteReg(m, rd, Alu.Exec(x, y, op, op32)))
    case JumpTo(target) => if target % 2 != 0 then Outcome(Raise(m, 0, target), true, false) else Jump(m, target)
    case JumpAndLink(rd, link, target) =>
      if target % 2 != 0 then Next(Raise(m, 0, target)) else Jump(WriteReg(m, rd, link), target)
    case GoTo(target) => Jump(m, target)
    case LoadReg(rd, va, size, signed) => Next(DoLoad(m, rd, va, size, signed))
    case StoreMem(va, size, value) => Next(DoStore(m, va, size, value))
    case Atomic(rd, va, size, access) => Next(DoAtomic(m, rd, va, size, access))
    case Trap(code) => Next(Raise(m, code, 0))
    case ReturnM => OrIllegal(m, Mret(m.core))
    case ReturnS => OrIllegal(m, Sret(m.core))
    case FenceVma(vaddr, asid) =>
      if SfencePermitted(m.core) then Next(FlushTlb(m, vaddr, asid)) else Illegal(m)
    case CsrOp(rd, index, f, operand, write) => DoCsr(m, rd, index, f, operand, write)
  }

  function Decoded(c: Core, w: bv32): Action
    requires HasRegs(c)
  {
    if IsCompressed(w) then DecodeC(c, w) else Decode32(c, w)
  }

  function Execute(m: Machine, w: bv32): (o: Outcome)
    requires WellFormed(m)
    ensures WellFormed(o.m)
  {
    Perform(m, Decoded(m.core, w))
  }

  /** The program counter and the counter after the instruction, and no trap pending. */
  function Retire(m: Machine, jumped: bool, length: nat): (m': Machine)
    requires WellFormed(m)
    ensures WellFormed(m')
  {
    var c := m.core;
    var pc := if c.needTrap then c.trapPc else if jumped then c.pc else Wrap64(c.pc + length);
    var csrs := if c.needTrap then c.csrs else c.csrs.(minstret := Wrap64(c.csrs.minstret + 1));
    m.(core := c.(pc := pc, csrs := csrs, needTrap := false))
  }

  /** The end of the step, unless the emulator has stopped on the way. */
  function Commit(o: Outcome, w: bv32, length: nat): (m': Machine)
    requires WellFormed(o.m)
    ensures WellFormed(m')
  {
    var m := if o.illegal && o.m.core.stop == Running then Raise(o.m, 2, Word(w as bv64)) else o.m;
    if m.core.stop != Running then m else Retire(m, o.jumped, length)
  }

  function Fetched(m: Machine): (r: (Machine, Reply))
    requires WellFormed(m)
    ensures WellFormed(r.0) && r.0.core == m.core
  {
    Mem(m, Fetch(4), m.core.pc)
  }

  /** The instruction word in the four bytes fetched. */
  function FetchedWord(bytes: seq<byte>): bv32 {
    (Bits(Wrap64(FromBytes(bytes))) & 0xffff_ffff) as bv32
  }

  /** The word a step executes, unless the counter is odd or the fetch fails. */
  function WordAt(m: Machine): Option<bv32>
    requires WellFormed(m)
  {
    if m.core.pc % 2 != 0 || !Fetched(m).1.Data? then None else Some(FetchedWord(Fetched(m).1.value))
  }

  /** The instruction a step executes, likewise. */
  function InstructionOf(m: Machine): Option<Action>
    requires WellFormed(m)
  {
    match WordAt(m)
    case Some(w) => Some(Decoded(m.core, w))
    case None => None
  }

  /** Fetch, decode and execute, when no interrupt is taken. */
  function Instruction(m: Machine): (m': Machine)
    requires WellFormed(m)
    ensures WellFormed(m')
  {
    if m.core.pc % 2 != 0 then Commit(Next(Raise(m, 0, m.core.pc)), 0, 4) else
    var (m', reply) := Fetched(m);
    match reply
    case Data(bytes) =>
      var w := FetchedWord(bytes);
      Commit(Execute(m', w), w, if IsCompressed(w) then 2 else 4)
    case Faulted(f) =>
      if FetchCode(f) == 0 then Halt(m') else Commit(Next(Raise(m', FetchCode(f), m.core.pc)), 0, 4)
    case _ => Halt(m')
  }

  /** A machine stopped by a failed assertion stays as it is. */
  function Step(m: Machine, lines: Lines): (m': Machine)
    requires WellFormed(m)
    ensures WellFormed(m')
  {
    if m.core.stop != Running then m else
    var begun := m.(core := PreExec(m.core, lines));
    if begun.core.stop != Running then begun
    else if begun.core.needTrap then Commit(Next(begun), 0, 4) else Instruction(begun)
  }
}
