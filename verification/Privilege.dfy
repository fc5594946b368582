/**
 * Architectural state of a hart, its control and status registers, and the trap machinery.
 * Words that are read bit by bit are bit vectors; the others are numbers.
 */
module Privilege {
  import opened Words
  import opened Sv39

  /** The trap registers that machine and supervisor mode each have a copy of. */
  datatype Bank = Bank(tvec: u64, counteren: u64, scratch: u64, epc: u64, cause: u64, tval: u64)

  datatype Csrs = Csrs(
    cycle: u64, minstret: u64, hartid: nat,
    status: bv64, mip: bv64, mie: bv64, medeleg: bv64, mideleg: bv64,
    misa: u64, satp: u64, m: Bank, s: Bank)

  /** Which assertion of the emulator has failed, if any. */
  datatype Stop = Running | SecondTrap | NoCause | TrapLoop | Unexpected

  datatype Core = Core(
    gpr: seq<u64>, pc: u64, trapPc: u64, needTrap: bool,
    stop: Stop, priv: Priv, nextPriv: Priv, csrs: Csrs)

  /** Interrupt lines from the platform, sampled before each instruction. */
  datatype Lines = Lines(meip: bool, msip: bool, mtip: bool, seip: bool)

  // ----- Fields of words

  function Fld(w: bv64, lo: bv64, mask: bv64): bv64
    requires lo < 64
  {
    (w >> lo) & mask
  }

  function SetFld(w: bv64, lo: bv64, mask: bv64, v: bv64): bv64
    requires lo < 64
  {
    (w & !(mask << lo)) | ((v & mask) << lo)
  }

  /** The word with one field taken from another word. */
  function CopyFld(w: bv64, from: bv64, lo: bv64, mask: bv64): bv64
    requires lo < 64
  {
    SetFld(w, lo, mask, Fld(from, lo, mask))
  }

  const SIE: bv64 := 1
  const MIE: bv64 := 3
  const SPIE: bv64 := 5
  const UBE: bv64 := 6
  const MPIE: bv64 := 7
  const SPP: bv64 := 8
  const VS: bv64 := 9
  const MPP: bv64 := 11
  const FS: bv64 := 13
  const XS: bv64 := 15
  const MPRV: bv64 := 17
  const SUM: bv64 := 18
  const MXR: bv64 := 19
  const TVM: bv64 := 20
  const TW: bv64 := 21
  const TSR: bv64 := 22
  const UXL: bv64 := 32
  const SXL: bv64 := 34
  const SD: bv64 := 63

  predicate Flag(status: bv64, lo: bv64)
    requires lo < 64
  {
    Fld(status, lo, 1) == 1
  }

  function BoolBit(b: bool): bv64 {
    if b then 1 else 0
  }

  function PrivOf(bits: bv64): Priv {
    if bits == 0 then U else if bits == 1 then S else if bits == 2 then H else M
  }

  function PrivBits(p: Priv): bv64 {
    match p case U => 0 case S => 1 case H => 2 case M => 3
  }

  function Rank(p: Priv): nat {
    match p case U => 0 case S => 1 case H => 2 case M => 3
  }

  function Mpp(status: bv64): Priv {
    PrivOf(Fld(status, MPP, 3))
  }

  function Spp(status: bv64): Priv {
    PrivOf(Fld(status, SPP, 1))
  }

  /** What translation sees of the hart. */
  function ContextOf(c: Core): Context {
    var r := c.csrs;
    Context(c.priv, r.satp / 0x1000_0000_0000_0000, r.satp % 0x1000_0000_0000,
            r.satp / 0x1000_0000_0000 % 0x1_0000, r.hartid,
            Flag(r.status, MPRV), Mpp(r.status), Flag(r.status, SUM), Flag(r.status, MXR))
  }

  // ----- Control and status registers

  const S_INT_MASK: bv64 := 0x222
  const M_INT_MASK: bv64 := 0xaaa
  const S_EXC_MASK: bv64 := 0xf7ff
  const COUNTER_MASK: bv64 := 5

  datatype Csr =
    | Vendor | HartId | MStatus | Misa | Medeleg | Mideleg | Mie | Mtvec | Mcounteren | Mscratch
    | Mepc | Mcause | Mtval | Mip | Mcycle | Minstret
    | SStatus | Sie | Stvec | Scounteren | Sscratch | Sepc | Scause | Stval | Sip | Satp
    | Cycle | Tselect | Tdata1 | Time
    | Unknown

  function DecodeCsr(index: nat): Csr {
    if index in {0xf11, 0xf12, 0xf13, 0xf15} then Vendor
    else if index == 0xf14 then HartId
    else if index == 0x300 then MStatus
    else if index == 0x301 then Misa
    else if index == 0x302 then Medeleg
    else if index == 0x303 then Mideleg
    else if index == 0x304 then Mie
    else if index == 0x305 then Mtvec
    else if index == 0x306 then Mcounteren
    else if index == 0x340 then Mscratch
    else if index == 0x341 then Mepc
    else if index == 0x342 then Mcause
    else if index == 0x343 then Mtval
    else if index == 0x344 then Mip
    else if index == 0xb00 then Mcycle
    else if index == 0xb02 then Minstret
    else if index == 0x100 then SStatus
    else if index == 0x104 then Sie
    else if index == 0x105 then Stvec
    else if index == 0x106 then Scounteren
    else if index == 0x140 then Sscratch
    else if index == 0x141 then Sepc
    else if index == 0x142 then Scause
    else if index == 0x143 then Stval
    else if index == 0x144 then Sip
    else if index == 0x180 then Satp
    else if index == 0xc00 then Cycle
    else if index == 0x7a0 then Tselect
    else if index == 0x7a1 then Tdata1
    else if index == 0xc01 then Time
    else Unknown
  }

  predicate CsrPermitted(priv: Priv, index: nat, write: bool) {
    index / 0x100 % 4 <= Rank(priv) && !(index / 0x400 % 4 == 3 && write)
  }

  /** sstatus is put together field by field from the fields of mstatus of the same name. */
  function SStatusView(status: bv64): bv64 {
    var r1 := CopyFld(0, status, SIE, 1);
    var r2 := CopyFld(r1, status, SPIE, 1);
    var r3 := CopyFld(r2, status, UBE, 1);
    var r4 := CopyFld(r3, status, SPP, 1);
    var r5 := CopyFld(r4, status, VS, 3);
    var r6 := CopyFld(r5, status, FS, 3);
    var r7 := CopyFld(r6, status, XS, 3);
    var r8 := CopyFld(r7, status, SUM, 1);
    var r9 := CopyFld(r8, status, MXR, 1);
    var r10 := CopyFld(r9, status, UXL, 3);
    CopyFld(r10, status, SD, 1)
  }

  function WriteSStatus(status: bv64, data: bv64): bv64 {
    var r1 := CopyFld(status, data, SIE, 1);
    var r2 := CopyFld(r1, data, SPIE, 1);
    var r3 := CopyFld(r2, data, SPP, 1);
    var r4 := CopyFld(r3, data, SUM, 1);
    CopyFld(r4, data, MXR, 1)
  }

  function WriteMStatus(status: bv64, data: bv64): bv64 {
    var r1 := CopyFld(status, data, SIE, 1);
    var r2 := CopyFld(r1, data, MIE, 1);
    var r3 := CopyFld(r2, data, SPIE, 1);
    var r4 := CopyFld(r3, data, MPIE, 1);
    var r5 := CopyFld(r4, data, SPP, 1);
    var r6 := CopyFld(r5, data, MPP, 3);
    var r7 := CopyFld(r6, data, MPRV, 1);
    var r8 := CopyFld(r7, data, SUM, 1);
    var r9 := CopyFld(r8, data, MXR, 1);
    var r10 := CopyFld(r9, data, TVM, 1);
    var r11 := CopyFld(r10, data, TW, 1);
    CopyFld(r11, data, TSR, 1)
  }

  function CsrRead(c: Csrs, priv: Priv, index: nat): Option<u64> {
    match DecodeCsr(index)
    case Vendor => Some(0)
    case HartId => Some(Wrap64(c.hartid))
    case MStatus => Some(Word(c.status))
    case Misa => Some(c.misa)
    case Medeleg => Some(Word(c.medeleg))
    case Mideleg => Some(Word(c.mideleg))
    case Mie => Some(Word(c.mie))
    case Mtvec => Some(c.m.tvec)
    case Mcounteren => Some(c.m.counteren)
    case Mscratch => Some(c.m.scratch)
    case Mepc => Some(c.m.epc)
    case Mcause => Some(c.m.cause)
    case Mtval => Some(c.m.tval)
    case Mip => Some(Word(c.mip))
    case Mcycle => Some(c.cycle)
    case Minstret => Some(c.minstret)
    case SStatus => Some(Word(SStatusView(c.status)))
    case Sie => Some(Word(c.mie & S_INT_MASK))
    case Stvec => Some(c.s.tvec)
    case Scounteren => Some(c.s.counteren)
    case Sscratch => Some(c.s.scratch)
    case Sepc => Some(c.s.epc)
    case Scause => Some(c.s.cause)
    case Stval => Some(c.s.tval)
    case Sip => Some(Word(c.mip & S_INT_MASK))
    case Satp => if priv == S && Flag(c.status, TVM) then None else Some(c.satp)
    case Cycle => if Rank(priv) <= 1 && (c.m.counteren % 2 == 0 || c.s.counteren % 2 == 0) then None else Some(c.cycle)
    case Tselect => Some(1)
    case Tdata1 => Some(0)
    case Time => Some(c.cycle)
    case Unknown => None
  }

  /** The bits of a write that the register implements. */
  function Legal(bits: bv64, mask: bv64): bv64 {
    bits & mask
  }

  /** A write to the supervisor's part of an interrupt register. */
  function Merged(w: bv64, bits: bv64): bv64 {
    (w & !S_INT_MASK) | (bits & S_INT_MASK)
  }

  datatype Written = Written(csrs: Csrs) | IllegalWrite | WriteStops

  function CsrWrite(c: Csrs, priv: Priv, index: nat, data: u64): Written {
    WriteNamed(c, priv, DecodeCsr(index), data, Bits(data))
  }

  predicate IsBits(csr: Csr) {
    csr.MStatus? || csr.SStatus? || csr.Medeleg? || csr.Mideleg? || csr.Mie? || csr.Mip? || csr.Sie? || csr.Sip?
  }

  predicate IsMachineBank(csr: Csr) {
    csr.Mtvec? || csr.Mcounteren? || csr.Mscratch? || csr.Mepc? || csr.Mcause? || csr.Mtval?
  }

  predicate IsSupervisorBank(csr: Csr) {
    csr.Stvec? || csr.Scounteren? || csr.Sscratch? || csr.Sepc? || csr.Scause? || csr.Stval?
  }

  function WriteBits(c: Csrs, csr: Csr, bits: bv64): Csrs
    requires IsBits(csr)
  {
    match csr
    case MStatus => c.(status := WriteMStatus(c.status, bits))
    case SStatus => c.(status := WriteSStatus(c.status, bits))
    case Medeleg => c.(medeleg := Legal(bits, S_EXC_MASK))
    case Mideleg => c.(mideleg := Legal(bits, S_INT_MASK))
    case Mie => c.(mie := Legal(bits, M_INT_MASK))
    case Mip => c.(mip := Legal(bits, M_INT_MASK))
    case Sie => c.(mie := Merged(c.mie, bits))
    case Sip => c.(mip := Merged(c.mip, bits))
  }

  /** A reserved mode written to mtvec stops the emulator. */
  function WriteMachineBank(bank: Bank, csr: Csr, data: u64, bits: bv64): Option<Bank>
    requires IsMachineBank(csr)
  {
    match csr
    case Mtvec => if data % 4 <= 1 then Some(bank.(tvec := data)) else None
    case Mcounteren => Some(bank.(counteren := Word(Legal(bits, COUNTER_MASK))))
    case Mscratch => Some(bank.(scratch := data))
    case Mepc => Some(bank.(epc := data))
    case Mcause => Some(bank.(cause := data))
    case Mtval => Some(bank.(tval := data))
  }

  /** A reserved mode written to stvec is taken as direct. */
  function WriteSupervisorBank(bank: Bank, csr: Csr, data: u64, bits: bv64): Bank
    requires IsSupervisorBank(csr)
  {
    match csr
    case Stvec => bank.(tvec := if data % 4 > 1 then data - data % 4 else data)
    case Scounteren => bank.(counteren := Word(Legal(bits, COUNTER_MASK)))
    case Sscratch => bank.(scratch := data)
    case Sepc => bank.(epc := data)
    case Scause => bank.(cause := data)
    case Stval => bank.(tval := data)
  }

  /** The mode field of satp is cleared unless it names Sv39. */
  function LegalSatp(data: u64): u64 {
    if data / 0x1000_0000_0000_0000 in {0, 8} then data else data % 0x1000_0000_0000_0000
  }

  function WriteOther(c: Csrs, priv: Priv, csr: Csr, data: u64): Written {
    if csr.Satp? then
      if priv == S && Flag(c.status, TVM) then IllegalWrite else Written(c.(satp := LegalSatp(data)))
    else if csr.Mcycle? then Written(c.(cycle := data))
    else if csr.Misa? || csr.Tselect? || csr.Tdata1? || csr.Time? then Written(c)
    else IllegalWrite
  }

  /** The write, with its data both as a number and as bits. */
  function WriteNamed(c: Csrs, priv: Priv, csr: Csr, data: u64, bits: bv64): Written {
    if IsBits(csr) then Written(WriteBits(c, csr, bits))
    else if IsMachineBank(csr) then
      match WriteMachineBank(c.m, csr, data, bits)
      case Some(bank) => Written(c.(m := bank))
      case None => WriteStops
    else if IsSupervisorBank(csr) then Written(c.(s := WriteSupervisorBank(c.s, csr, data, bits)))
    else WriteOther(c, priv, csr, data)
  }

  // ----- Traps

  const NO_INT := 24

  /** The pending interrupt of highest order: MEI, MSI, MTI, SEI, SSI, STI. */
  function IntCode(bits: bv64): (code: nat)
    ensures code <= NO_INT
  {
    if Flag(bits, 11) then 11
    else if Flag(bits, 3) then 3
    else if Flag(bits, 7) then 7
    else if Flag(bits, 9) then 9
    else if Flag(bits, 1) then 1
    else if Flag(bits, 5) then 5
    else NO_INT
  }

  function Bit(w: bv64, k: nat): bool
    requires k < 64
  {
    (w >> k) & 1 == 1
  }

  const INTERRUPT_BIT: u64 := TWO_TO_THE_63

  function TrapTarget(tvec: u64, code: nat): u64 {
    Wrap64(tvec - tvec % 4 + if tvec % 4 == 1 then code * 4 else 0)
  }

  /** What a trap records in the bank of the mode it goes to. */
  function Trapped(bank: Bank, pc: u64, code: nat, interrupt: bool, tval: u64): Bank
    requires code < 64
  {
    bank.(tval := tval, cause := code + (if interrupt then INTERRUPT_BIT else 0), epc := pc)
  }

  predicate Delegated(c: Core, code: nat, interrupt: bool)
    requires code < 64
  {
    c.priv != M && Bit(if interrupt then c.csrs.mideleg else c.csrs.medeleg, code)
  }

  function TrapSStatus(status: bv64, from: bv64): bv64 {
    var st1 := SetFld(status, SPIE, 1, Fld(status, SIE, 1));
    var st2 := SetFld(st1, SIE, 1, 0);
    SetFld(st2, SPP, 1, from)
  }

  function TrapToS(c: Core, code: nat, interrupt: bool, tval: u64): Core
    requires code < 64
  {
    c.(needTrap := true, nextPriv := S,
       trapPc := TrapTarget(c.csrs.s.tvec, code),
       csrs := c.csrs.(status := TrapSStatus(c.csrs.status, PrivBits(c.priv)),
                       s := Trapped(c.csrs.s, c.pc, code, interrupt, tval)))
  }

  function TrapMStatus(status: bv64, from: bv64): bv64 {
    var st1 := SetFld(status, MPIE, 1, Fld(status, MIE, 1));
    var st2 := SetFld(st1, MIE, 1, 0);
    SetFld(st2, MPP, 3, from)
  }

  function TrapToM(c: Core, code: nat, interrupt: bool, tval: u64): Core
    requires code < 64
  {
    c.(needTrap := true, nextPriv := M,
       trapPc := TrapTarget(c.csrs.m.tvec, code),
       csrs := c.csrs.(status := TrapMStatus(c.csrs.status, PrivBits(c.priv)),
                       m := Trapped(c.csrs.m, c.pc, code, interrupt, tval)))
  }

  /**
   * A trap while one is pending, a trap without a cause, and a fetch fault at the handler's own
   * address stop the emulator.
   */
  function RaiseTrap(c: Core, code: nat, interrupt: bool, tval: u64): (c': Core)
    requires code < 64
    ensures c'.gpr == c.gpr && c'.pc == c.pc && c'.priv == c.priv
  {
    if c.needTrap then c.(stop := SecondTrap) else
    if code == NO_INT then c.(stop := NoCause) else
    var t := if Delegated(c, code, interrupt) then TrapToS(c, code, interrupt, tval)
             else TrapToM(c, code, interrupt, tval);
    if code == 12 && tval == t.trapPc then t.(stop := TrapLoop) else t
  }

  function SetLines(mip: bv64, lines: Lines): bv64 {
    var r1 := SetFld(mip, 11, 1, BoolBit(lines.meip));
    var r2 := SetFld(r1, 3, 1, BoolBit(lines.msip));
    var r3 := SetFld(r2, 7, 1, BoolBit(lines.mtip));
    SetFld(r3, 9, 1, BoolBit(lines.seip))
  }

  /**
   * The interrupt to take now, if any, of those pending and enabled; `machine` are the ones among
   * them that are not delegated, `supervisor` those that are.
   */
  function ChooseAmong(priv: Priv, mie: bool, sie: bool, bits: bv64, machine: bv64, supervisor: bv64)
    : (code: Option<nat>)
    ensures code.Some? ==> code.value <= NO_INT
  {
    if IntCode(bits) == NO_INT then None
    else if priv == M then
      if mie && machine != 0 then Some(IntCode(machine)) else None
    else if supervisor != 0 then
      if Rank(priv) < Rank(S) || sie then Some(IntCode(bits)) else None
    else if Rank(priv) < Rank(M) || mie then Some(IntCode(bits))
    else None
  }

  function NotDelegated(bits: bv64, mideleg: bv64): bv64 {
    bits & !mideleg
  }

  function DelegatedOf(bits: bv64, mideleg: bv64): bv64 {
    bits & mideleg
  }

  function ChooseInterrupt(priv: Priv, mie: bool, sie: bool, bits: bv64, mideleg: bv64): (code: Option<nat>)
    ensures code.Some? ==> code.value <= NO_INT
  {
    ChooseAmong(priv, mie, sie, bits, NotDelegated(bits, mideleg), DelegatedOf(bits, mideleg))
  }

  function PendingBits(c: Csrs): bv64 {
    c.mip & c.mie
  }

  function Interrupt(c: Core): (code: Option<nat>)
    ensures code.Some? ==> code.value <= NO_INT
  {
    ChooseInterrupt(c.priv, Flag(c.csrs.status, MIE), Flag(c.csrs.status, SIE), PendingBits(c.csrs), c.csrs.mideleg)
  }

  function Begin(c: Core, lines: Lines): Core {
    c.(needTrap := false, priv := c.nextPriv,
       csrs := c.csrs.(cycle := Wrap64(c.csrs.cycle + 1), mip := SetLines(c.csrs.mip, lines)))
  }

  function PreExec(c: Core, lines: Lines): (c': Core)
    ensures c'.gpr == c.gpr && c'.pc == c.pc && c'.priv == c.nextPriv
  {
    var begun := Begin(c, lines);
    match Interrupt(begun)
    case None => begun
    case Some(code) => RaiseTrap(begun, code, true, 0)
  }

  function MretStatus(status: bv64): bv64 {
    var st1 := SetFld(status, MIE, 1, Fld(status, MPIE, 1));
    var st2 := SetFld(st1, MPIE, 1, 1);
    var st3 := if Fld(st2, MPP, 3) != 3 then SetFld(st2, MPRV, 1, 0) else st2;
    SetFld(st3, MPP, 3, 0)
  }

  function Mret(c: Core): Option<Core> {
    if c.priv != M then None
    else Some(c.(nextPriv := Mpp(c.csrs.status), needTrap := true, trapPc := c.csrs.m.epc,
                 csrs := c.csrs.(status := MretStatus(c.csrs.status))))
  }

  function SretStatus(status: bv64): bv64 {
    var st1 := SetFld(status, SIE, 1, Fld(status, SPIE, 1));
    var st2 := SetFld(st1, SPIE, 1, 1);
    var st3 := if Fld(st2, SPP, 1) != 3 then SetFld(st2, MPRV, 1, 0) else st2;
    SetFld(st3, SPP, 1, 0)
  }

  function Sret(c: Core): Option<Core> {
    if Rank(c.priv) < Rank(S) || Flag(c.csrs.status, TSR) then None
    else Some(c.(nextPriv := Spp(c.csrs.status), needTrap := true, trapPc := c.csrs.s.epc,
                 csrs := c.csrs.(status := SretStatus(c.csrs.status))))
  }

  predicate SfencePermitted(c: Core) {
    Rank(c.priv) >= Rank(S) && !(c.priv == S && Flag(c.csrs.status, TVM))
  }

  /** State after reset, at the address the loader sets. */
  function Reset(hartid: nat, pc: u64): Core {
    var bank := Bank(0, 0, 0, 0, 0, 0);
    var status := SetFld(SetFld(0, SXL, 3, 2), UXL, 3, 2);
    Core(seq(32, _ => 0), pc, 0, false, Running, M, M,
         Csrs(0, 0, hartid, status, 0, 0, 0, 0, 0x8000_0000_0014_1105, 0, bank, bank))
  }
}
