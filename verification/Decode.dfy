/**
 * Decoding: what an instruction word asks of the hart, in terms of its registers.  The
 * emulator decodes and executes in one switch; here each case of the switch is the action it
 * takes.
 */
module Decode {
  import opened Words
  import opened Sv39
  import opened Privilege
  import Alu

  type RegNo = r: nat | r < 32
  type Exception = n: nat | n < 16
  type Size = n: nat | n == 1 || n == 2 || n == 4 || n == 8 witness 1

  datatype Action =
    | Nothing
    | IllegalInstruction
    | SetReg(rd: RegNo, value: u64)
    | Compute(rd: RegNo, a: u64, b: u64, op: Alu.Op, op32: bool)
    | JumpTo(target: u64)                                // traps when the target is odd
    | JumpAndLink(rd: RegNo, link: u64, target: u64)      // likewise, before it links
    | GoTo(target: u64)                                  // does not test the target
    | LoadReg(rd: RegNo, va: u64, size: Size, signed: bool)
    | StoreMem(va: u64, size: Size, value: u64)
    | Atomic(rd: RegNo, va: u64, size: Size, access: Access)
    | Trap(code: Exception)
    | ReturnM
    | ReturnS
    | FenceVma(vaddr: u64, asid: nat)
    | CsrOp(rd: RegNo, index: nat, f: bv32, operand: u64, write: bool)

  // ----- Instruction fields

  function Opcode(w: bv32): bv32 { w & 0x7f }
  function Funct3(w: bv32): bv32 { (w >> 12) & 7 }
  function Funct7(w: bv32): bv32 { (w >> 25) & 0x7f }

  /** Register number held in the low five bits. */
  function Index(x: bv32): RegNo {
    (x & 31) as nat
  }

  /** Register number held in the five bits from `lo` on. */
  function Reg(w: bv32, lo: bv32): RegNo
    requires lo < 32
  {
    Index((w >> lo) & 31)
  }

  function Rd(w: bv32): RegNo { Reg(w, 7) }
  function Rs1(w: bv32): RegNo { Reg(w, 15) }
  function Rs2(w: bv32): RegNo { Reg(w, 20) }

  /** The low bits of `x`, with the bits above `sign` copied from that bit. */
  function SignExtend(x: bv64, sign: bv64): bv64
    requires sign < 63
  {
    if (x >> sign) & 1 == 1 then x | !((2 << sign) - 1) else x
  }

  function ImmI(w: bv32): bv64 {
    SignExtend((w >> 20) as bv64, 11)
  }

  function ImmS(w: bv32): bv64 {
    SignExtend((((w >> 25) << 5) | ((w >> 7) & 31)) as bv64, 11)
  }

  function ImmB(w: bv32): bv64 {
    SignExtend((((w >> 31) << 12) | (((w >> 7) & 1) << 11) | (((w >> 25) & 0x3f) << 5) |
                (((w >> 8) & 15) << 1)) as bv64, 12)
  }

  function ImmU(w: bv32): bv64 {
    SignExtend((w & 0xffff_f000) as bv64, 31)
  }

  function ImmJ(w: bv32): bv64 {
    SignExtend((((w >> 31) << 20) | (((w >> 12) & 0xff) << 12) | (((w >> 20) & 1) << 11) |
                (((w >> 21) & 0x3ff) << 1)) as bv64, 20)
  }

  // ----- Registers

  predicate HasRegs(c: Core) {
    |c.gpr| == 32
  }

  function Gpr(c: Core, r: RegNo): u64
    requires HasRegs(c)
  {
    c.gpr[r]
  }

  /** Base register plus immediate, wrapping around. */
  function Offset(c: Core, r: RegNo, imm: bv64): u64
    requires HasRegs(c)
  {
    Wrap64(c.gpr[r] + Word(imm))
  }

  function FromPc(c: Core, imm: bv64): u64 {
    Wrap64(c.pc + Word(imm))
  }

  // ----- 32-bit instructions

  predicate BranchTaken(f: bv32, a: u64, b: u64) {
    if f == 0 then a == b
    else if f == 1 then a != b
    else if f == 4 then Signed64(a) < Signed64(b)
    else if f == 5 then Signed64(a) >= Signed64(b)
    else if f == 6 then a < b
    else a >= b
  }

  function DecodeBranch(c: Core, w: bv32): Action
    requires HasRegs(c)
  {
    var f := Funct3(w);
    if f == 2 || f == 3 then IllegalInstruction
    else if BranchTaken(f, Gpr(c, Rs1(w)), Gpr(c, Rs2(w))) then JumpTo(FromPc(c, ImmB(w)))
    else Nothing
  }

  function DecodeLoad(c: Core, w: bv32): Action
    requires HasRegs(c)
  {
    var va, f := Offset(c, Rs1(w), ImmI(w)), Funct3(w);
    if f == 0 then LoadReg(Rd(w), va, 1, true)
    else if f == 1 then LoadReg(Rd(w), va, 2, true)
    else if f == 2 then LoadReg(Rd(w), va, 4, true)
    else if f == 3 then LoadReg(Rd(w), va, 8, true)
    else if f == 4 then LoadReg(Rd(w), va, 1, false)
    else if f == 5 then LoadReg(Rd(w), va, 2, false)
    else if f == 6 then LoadReg(Rd(w), va, 4, false)
    else IllegalInstruction
  }

  function DecodeStore(c: Core, w: bv32): Action
    requires HasRegs(c)
  {
    var va, value, f := Offset(c, Rs1(w), ImmS(w)), Gpr(c, Rs2(w)), Funct3(w);
    if f == 0 then StoreMem(va, 1, value)
    else if f == 1 then StoreMem(va, 2, value)
    else if f == 2 then StoreMem(va, 4, value)
    else if f == 3 then StoreMem(va, 8, value)
    else IllegalInstruction
  }

  function ComputeIf(rd: RegNo, a: u64, b: u64, op: Option<Alu.Op>, op32: bool): Action {
    match op
    case None => IllegalInstruction
    case Some(op) => Compute(rd, a, b, op, op32)
  }

  /** Shift amounts of 64 and more are rejected, but an immediate with its sign set is not. */
  predicate BadShift(imm: bv64) {
    imm >> 63 == 0 && imm >= 64
  }

  function OpImm(w: bv32): Option<Alu.Op> {
    var f, funct6 := Funct3(w), Funct7(w) >> 1;
    if f == 0 then Some(Alu.Add)
    else if f == 1 then (if BadShift(ImmI(w)) then None else Some(Alu.Sll))
    else if f == 2 then Some(Alu.Slt)
    else if f == 3 then Some(Alu.Sltu)
    else if f == 4 then Some(Alu.XorOp)
    else if f == 5 then (if funct6 == 0x10 then Some(Alu.Sra) else if funct6 == 0 then Some(Alu.Srl) else None)
    else if f == 6 then Some(Alu.OrOp)
    else Some(Alu.AndOp)
  }

  function OpImm32(w: bv32): Option<Alu.Op> {
    var f, funct7 := Funct3(w), Funct7(w);
    if f == 0 then Some(Alu.Add)
    else if f == 1 then (if BadShift(ImmI(w)) || funct7 != 0 then None else Some(Alu.Sll))
    else if f == 5 then (if funct7 == 0x20 then Some(Alu.Sra) else if funct7 == 0 then Some(Alu.Srl) else None)
    else None
  }

  /** A right shift takes its amount from the low six bits. */
  function OperandImm(w: bv32): u64 {
    Word(if Funct3(w) == 5 then ImmI(w) & 0x3f else ImmI(w))
  }

  function BaseOp(f: bv32): Alu.Op {
    if f == 0 then Alu.Add else if f == 1 then Alu.Sll else if f == 2 then Alu.Slt else if f == 3 then Alu.Sltu
    else if f == 4 then Alu.XorOp else if f == 5 then Alu.Srl else if f == 6 then Alu.OrOp else Alu.AndOp
  }

  function MulOp(f: bv32): Alu.Op {
    if f == 0 then Alu.Mul else if f == 1 then Alu.Mulh else if f == 2 then Alu.Mulhsu else if f == 3 then Alu.Mulhu
    else if f == 4 then Alu.Div else if f == 5 then Alu.Divu else if f == 6 then Alu.Rem else Alu.Remu
  }

  function SubOp(f: bv32): Option<Alu.Op> {
    if f == 0 then Some(Alu.Sub) else if f == 5 then Some(Alu.Sra) else None
  }

  function RegOp(w: bv32): Option<Alu.Op> {
    var f, funct7 := Funct3(w), Funct7(w);
    if funct7 == 0 then Some(BaseOp(f))
    else if funct7 == 0x20 then SubOp(f)
    else if funct7 == 1 then Some(MulOp(f))
    else None
  }

  function RegOp32(w: bv32): Option<Alu.Op> {
    var f, funct7 := Funct3(w), Funct7(w);
    if funct7 == 0 then (if f == 0 || f == 1 || f == 5 then Some(BaseOp(f)) else None)
    else if funct7 == 0x20 then SubOp(f)
    else if funct7 == 1 then (if f == 1 || f == 2 || f == 3 then None else Some(MulOp(f)))
    else None
  }

  function AmoOf(funct5: bv32): Option<AmoOp> {
    if funct5 == 1 then Some(Swap) else if funct5 == 0 then Some(Add) else if funct5 == 4 then Some(XorOp)
    else if funct5 == 12 then Some(AndOp) else if funct5 == 8 then Some(OrOp) else if funct5 == 16 then Some(Min)
    else if funct5 == 20 then Some(Max) else if funct5 == 24 then Some(MinU) else if funct5 == 28 then Some(MaxU)
    else None
  }

  function DecodeAmo(c: Core, w: bv32): Action
    requires HasRegs(c)
  {
    var f, funct5 := Funct3(w), Funct7(w) >> 2;
    if f != 2 && f != 3 then IllegalInstruction else
    var size: Size := if f == 2 then 4 else 8;
    var va, src := Gpr(c, Rs1(w)), Gpr(c, Rs2(w));
    if funct5 == 2 then
      if Rs2(w) != 0 then IllegalInstruction else Atomic(Rd(w), va, size, LoadReserved(size))
    else if funct5 == 3 then Atomic(Rd(w), va, size, StoreConditional(ToBytes(src, size)))
    else
      match AmoOf(funct5)
      case None => IllegalInstruction
      case Some(op) => Atomic(Rd(w), va, size, Amo(size, op, src))
  }

  function CsrIndex(w: bv32): nat {
    (w >> 20) as nat
  }

  /** Set and clear write nothing when their source is x0 or zero. */
  function DecodeCsrOp(c: Core, w: bv32): Action
    requires HasRegs(c)
  {
    var f := Funct3(w);
    if f == 4 then IllegalInstruction else
    var operand := if f >= 5 then Rs1(w) else Gpr(c, Rs1(w));
    CsrOp(Rd(w), CsrIndex(w), f, operand, f == 1 || f == 5 || Rs1(w) != 0)
  }

  function DecodePriv(c: Core, w: bv32): Action
    requires HasRegs(c)
  {
    var funct7, rs2 := Funct7(w), Rs2(w);
    var plain := Rs1(w) == 0 && Rd(w) == 0;
    if funct7 == 0 then
      if plain && rs2 == 0 then Trap(8 + Rank(c.priv))
      else if plain && rs2 == 1 then Trap(3)
      else IllegalInstruction
    else if funct7 == 8 then
      if !plain || rs2 == 5 then Nothing
      else if rs2 == 2 then ReturnS
      else IllegalInstruction
    else if funct7 == 0x18 then
      if plain && rs2 == 2 then ReturnM else IllegalInstruction
    else if funct7 == 9 then FenceVma(Gpr(c, Rs1(w)), Gpr(c, Rs2(w)) % 0x1_0000)
    else IllegalInstruction
  }

  function Decode32(c: Core, w: bv32): Action
    requires HasRegs(c)
  {
    var op := Opcode(w);
    if op == 0x37 then SetReg(Rd(w), Word(ImmU(w)))
    else if op == 0x17 then SetReg(Rd(w), FromPc(c, ImmU(w)))
    else if op == 0x6f then JumpAndLink(Rd(w), Wrap64(c.pc + 4), FromPc(c, ImmJ(w)))
    else if op == 0x67 then JumpAndLink(Rd(w), Wrap64(c.pc + 4), Offset(c, Rs1(w), ImmI(w) & !1))
    else if op == 0x63 then DecodeBranch(c, w)
    else if op == 0x03 then DecodeLoad(c, w)
    else if op == 0x23 then DecodeStore(c, w)
    else if op == 0x13 then ComputeIf(Rd(w), Gpr(c, Rs1(w)), OperandImm(w), OpImm(w), false)
    else if op == 0x1b then ComputeIf(Rd(w), Gpr(c, Rs1(w)), OperandImm(w), OpImm32(w), true)
    else if op == 0x33 then ComputeIf(Rd(w), Gpr(c, Rs1(w)), Gpr(c, Rs2(w)), RegOp(w), false)
    else if op == 0x3b then ComputeIf(Rd(w), Gpr(c, Rs1(w)), Gpr(c, Rs2(w)), RegOp32(w), true)
    else if op == 0x2f then DecodeAmo(c, w)
    else if op == 0x0f then Nothing
    else if op == 0x73 then (if Funct3(w) == 0 then DecodePriv(c, w) else DecodeCsrOp(c, w))
    else IllegalInstruction
  }

  // ----- 16-bit instructions

  predicate IsCompressed(w: bv32) {
    w & 3 != 3
  }

  /** Bits r to l of the word, moved to position `shift`. */
  function Cat(w: bv32, r: bv32, l: bv32, shift: bv32): bv32
    requires l <= r < 31 && shift < 32
  {
    ((w >> l) & ((1 << (r - l + 1)) - 1)) << shift
  }

  /** One of the registers x8 to x15, named by three bits. */
  function RegC(w: bv32, lo: bv32): RegNo
    requires lo < 32
  {
    Index(8 + ((w >> lo) & 7))
  }

  /** Quadrant (bits 1 and 0) followed by bits 15 to 13. */
  function OpcodeC(w: bv32): bv32 {
    ((w & 3) << 3) | ((w >> 13) & 7)
  }

  function ImmAddi4spn(w: bv32): bv32 { Cat(w, 12, 11, 4) | Cat(w, 10, 7, 6) | Cat(w, 6, 6, 2) | Cat(w, 5, 5, 3) }
  function ImmWord(w: bv32): bv32 { Cat(w, 6, 6, 2) | Cat(w, 5, 5, 6) | Cat(w, 12, 10, 3) }
  function ImmDouble(w: bv32): bv32 { Cat(w, 6, 5, 6) | Cat(w, 12, 10, 3) }
  function Imm6(w: bv32): bv32 { Cat(w, 12, 12, 5) | Cat(w, 6, 2, 0) }
  function ImmAddi16sp(w: bv32): bv32 {
    Cat(w, 12, 12, 9) | Cat(w, 6, 6, 4) | Cat(w, 5, 5, 6) | Cat(w, 4, 3, 7) | Cat(w, 2, 2, 5)
  }
  function ImmLui(w: bv32): bv32 { Cat(w, 12, 12, 17) | Cat(w, 6, 2, 12) }
  function ImmJump(w: bv32): bv32 {
    Cat(w, 12, 12, 11) | Cat(w, 11, 11, 4) | Cat(w, 10, 9, 8) | Cat(w, 8, 8, 10) |
    Cat(w, 7, 7, 6) | Cat(w, 6, 6, 7) | Cat(w, 5, 3, 1) | Cat(w, 2, 2, 5)
  }
  function ImmBranch(w: bv32): bv32 {
    Cat(w, 12, 12, 8) | Cat(w, 11, 10, 3) | Cat(w, 6, 5, 6) | Cat(w, 4, 3, 1) | Cat(w, 2, 2, 5)
  }
  function ImmLwsp(w: bv32): bv32 { Cat(w, 6, 4, 2) | Cat(w, 3, 2, 6) | Cat(w, 12, 12, 5) }
  function ImmLdsp(w: bv32): bv32 { Cat(w, 6, 5, 3) | Cat(w, 4, 2, 6) | Cat(w, 12, 12, 5) }
  function ImmSwsp(w: bv32): bv32 { Cat(w, 12, 9, 2) | Cat(w, 8, 7, 6) }
  function ImmSdsp(w: bv32): bv32 { Cat(w, 12, 10, 3) | Cat(w, 9, 7, 6) }

  /** Six-bit immediate, sign-extended. */
  function SImm6(w: bv32): bv64 {
    SignExtend(Imm6(w) as bv64, 5)
  }

  /** Most forms do nothing when their immediate is zero. */
  function UnlessZero(imm: bv64, action: Action): Action {
    if imm != 0 then action else Nothing
  }

  function DecodeCAlu(c: Core, w: bv32): Action
    requires HasRegs(c)
  {
    var r := RegC(w, 7);
    var a, b := Gpr(c, r), Gpr(c, RegC(w, 2));
    var bit12 := Cat(w, 12, 12, 0) != 0;
    if Cat(w, 11, 11, 0) == 0 then
      var shamt := Imm6(w) as bv64;
      UnlessZero(shamt, Compute(r, a, Word(shamt), if Cat(w, 10, 10, 0) != 0 then Alu.Sra else Alu.Srl, false))
    else if Cat(w, 10, 10, 0) == 0 then Compute(r, a, Word(SImm6(w)), Alu.AndOp, false)
    else
      var funct2 := Cat(w, 6, 5, 0);
      if funct2 == 0 then Compute(r, a, b, Alu.Sub, bit12)
      else if funct2 == 1 then Compute(r, a, b, if bit12 then Alu.Add else Alu.XorOp, bit12)
      else if bit12 then IllegalInstruction
      else Compute(r, a, b, if funct2 == 2 then Alu.OrOp else Alu.AndOp, false)
  }

  /** Jumps through a register clear the lowest bit of the target. */
  function DecodeCMove(c: Core, w: bv32): Action
    requires HasRegs(c)
  {
    var rs2, rs1 := Reg(w, 2), Reg(w, 7);
    var target := Gpr(c, rs1) - Gpr(c, rs1) % 2;
    if Cat(w, 12, 12, 0) != 0 then
      if rs2 == 0 then (if rs1 == 0 then Trap(3) else JumpAndLink(1, Wrap64(c.pc + 2), target))
      else Compute(rs1, Gpr(c, rs1), Gpr(c, rs2), Alu.Add, false)
    else if rs2 == 0 then (if rs1 == 0 then IllegalInstruction else JumpTo(target))
    else SetReg(rs1, Gpr(c, rs2))
  }

  function DecodeCUpper(c: Core, w: bv32): Action
    requires HasRegs(c)
  {
    var rd := Reg(w, 7);
    if rd == 2 then
      var imm := SignExtend(ImmAddi16sp(w) as bv64, 9);
      UnlessZero(imm, SetReg(rd, Offset(c, rd, imm)))
    else
      var imm := SignExtend(ImmLui(w) as bv64, 17);
      UnlessZero(imm, SetReg(rd, Word(imm)))
  }

  function DecodeC(c: Core, w: bv32): Action
    requires HasRegs(c)
  {
    var op := OpcodeC(w);
    if op == 0x00 then
      var imm := ImmAddi4spn(w) as bv64;
      if imm != 0 then SetReg(RegC(w, 2), Offset(c, 2, imm)) else IllegalInstruction
    else if op == 0x02 then LoadReg(RegC(w, 2), Offset(c, RegC(w, 7), ImmWord(w) as bv64), 4, true)
    else if op == 0x03 then LoadReg(RegC(w, 2), Offset(c, RegC(w, 7), ImmDouble(w) as bv64), 8, true)
    else if op == 0x06 then StoreMem(Offset(c, RegC(w, 7), ImmWord(w) as bv64), 4, Gpr(c, RegC(w, 2)))
    else if op == 0x07 then StoreMem(Offset(c, RegC(w, 7), ImmDouble(w) as bv64), 8, Gpr(c, RegC(w, 2)))
    else if op == 0x08 then
      UnlessZero(SImm6(w), Compute(Reg(w, 7), Gpr(c, Reg(w, 7)), Word(SImm6(w)), Alu.Add, false))
    else if op == 0x09 then Compute(Reg(w, 7), Gpr(c, Reg(w, 7)), Word(SImm6(w)), Alu.Add, true)
    else if op == 0x0a then SetReg(Reg(w, 7), Word(SImm6(w)))
    else if op == 0x0b then DecodeCUpper(c, w)
    else if op == 0x0c then DecodeCAlu(c, w)
    else if op == 0x0d then GoTo(FromPc(c, SignExtend(ImmJump(w) as bv64, 11)))
    else if op == 0x0e then
      if Gpr(c, RegC(w, 7)) == 0 then GoTo(FromPc(c, SignExtend(ImmBranch(w) as bv64, 8))) else Nothing
    else if op == 0x0f then
      if Gpr(c, RegC(w, 7)) != 0 then GoTo(FromPc(c, SignExtend(ImmBranch(w) as bv64, 8))) else Nothing
    else if op == 0x10 then
      UnlessZero(Imm6(w) as bv64, Compute(Reg(w, 7), Gpr(c, Reg(w, 7)), Word(Imm6(w) as bv64), Alu.Sll, false))
    else if op == 0x12 then LoadReg(Reg(w, 7), Offset(c, 2, ImmLwsp(w) as bv64), 4, true)
    else if op == 0x13 then LoadReg(Reg(w, 7), Offset(c, 2, ImmLdsp(w) as bv64), 8, true)
    else if op == 0x14 then DecodeCMove(c, w)
    else if op == 0x16 then StoreMem(Offset(c, 2, ImmSwsp(w) as bv64), 4, Gpr(c, Reg(w, 2)))
    else if op == 0x17 then StoreMem(Offset(c, 2, ImmSdsp(w) as bv64), 8, Gpr(c, Reg(w, 2)))
    else IllegalInstruction
  }
}
