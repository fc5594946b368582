/**
 * Every compressed instruction does what the 32-bit instruction it abbreviates does
 * (chapter 16 of the Unprivileged ISA), except that a link points two bytes on.
 */
module CompressedRefinement {
  import opened Words
  import opened Privilege
  import opened Decode
  import opened Exec
  import Sv39
  import Alu

  // ----- The 32-bit formats

  datatype Format =
    | IForm(op: bv32, rd: bv32, f3: bv32, rs1: bv32, imm: bv32)
    | RForm(op: bv32, rd: bv32, f3: bv32, rs1: bv32, rs2: bv32, f7: bv32)
    | SForm(f3: bv32, rs1: bv32, rs2: bv32, imm: bv32)
    | BForm(f3: bv32, rs1: bv32, imm: bv32)  // rs2 is x0
    | JForm(imm: bv32)                       // rd is x0
    | UForm(rd: bv32, imm: bv32)

  function Encode(f: Format): bv32 {
    match f
    case IForm(op, rd, f3, rs1, imm) => EncI(op, rd, f3, rs1, imm)
    case RForm(op, rd, f3, rs1, rs2, f7) => EncR(op, rd, f3, rs1, rs2, f7)
    case SForm(f3, rs1, rs2, imm) => EncS(f3, rs1, rs2, imm)
    case BForm(f3, rs1, imm) => EncB(f3, rs1, imm)
    case JForm(imm) => EncJ(imm)
    case UForm(rd, imm) => EncU(rd, imm)
  }

  function EncI(op: bv32, rd: bv32, f3: bv32, rs1: bv32, imm: bv32): bv32 {
    (imm << 20) | (rs1 << 15) | (f3 << 12) | (rd << 7) | op
  }

  function EncR(op: bv32, rd: bv32, f3: bv32, rs1: bv32, rs2: bv32, f7: bv32): bv32 {
    (f7 << 25) | (rs2 << 20) | (rs1 << 15) | (f3 << 12) | (rd << 7) | op
  }

  function EncS(f3: bv32, rs1: bv32, rs2: bv32, imm: bv32): bv32 {
    ((imm >> 5) << 25) | (rs2 << 20) | (rs1 << 15) | (f3 << 12) | ((imm & 31) << 7) | 0x23
  }

  function EncB(f3: bv32, rs1: bv32, imm: bv32): bv32 {
    ((imm >> 12) << 31) | (((imm >> 5) & 0x3f) << 25) | (rs1 << 15) | (f3 << 12) |
    (((imm >> 1) & 15) << 8) | (((imm >> 11) & 1) << 7) | 0x63
  }

  function EncJ(imm: bv32): bv32 {
    ((imm >> 20) << 31) | (((imm >> 1) & 0x3ff) << 21) | (((imm >> 11) & 1) << 20) | (((imm >> 12) & 0xff) << 12) | 0x6f
  }

  function EncU(rd: bv32, imm: bv32): bv32 {
    (imm << 12) | (rd << 7) | 0x37
  }

  /** Sign-extends the bits up to `sign` to a field that ends at bit `top`. */
  function Widen(x: bv32, sign: bv32, top: bv32): bv32
    requires sign <= top < 31
  {
    if (x >> sign) & 1 == 1 then (x | !((2 << sign) - 1)) & ((2 << top) - 1) else x
  }

  // ----- Expansion, by opcode; None is an encoding the ISA reserves

  function R5(w: bv32, lo: bv32): bv32 requires lo < 32 { (w >> lo) & 31 }
  function R3(w: bv32, lo: bv32): bv32 requires lo < 32 { 8 + ((w >> lo) & 7) }

  /** The 12-bit, 13-bit, 20-bit and 21-bit immediates of the expansions. */
  function Imm6Wide(w: bv32): bv32 { Widen(Imm6(w), 5, 11) }
  function Addi16spWide(w: bv32): bv32 { Widen(ImmAddi16sp(w), 9, 11) }
  function BranchWide(w: bv32): bv32 { Widen(ImmBranch(w), 8, 12) }
  function LuiWide(w: bv32): bv32 { Widen(ImmLui(w) >> 12, 5, 19) }
  function JumpWide(w: bv32): bv32 { Widen(ImmJump(w), 11, 20) }

  function ExpandAlu(w: bv32): Option<Format> {
    var r, r2 := R3(w, 7), R3(w, 2);
    var bit12 := Cat(w, 12, 12, 0) != 0;
    var op := if bit12 then 0x3b else 0x33;
    if Cat(w, 11, 11, 0) == 0 then
      Some(IForm(0x13, r, 5, r, Imm6(w) | (if Cat(w, 10, 10, 0) != 0 then 0x400 else 0)))
    else if Cat(w, 10, 10, 0) == 0 then Some(IForm(0x13, r, 7, r, Imm6Wide(w)))
    else
      var funct2 := Cat(w, 6, 5, 0);
      if funct2 == 0 then Some(RForm(op, r, 0, r, r2, 0x20))
      else if funct2 == 1 then Some(RForm(op, r, if bit12 then 0 else 4, r, r2, 0))
      else if bit12 then None
      else Some(RForm(op, r, if funct2 == 2 then 6 else 7, r, r2, 0))
  }

  function ExpandMove(w: bv32): Option<Format> {
    var rs2, rs1 := R5(w, 2), R5(w, 7);
    if Cat(w, 12, 12, 0) != 0 then
      if rs2 == 0 then Some(if rs1 == 0 then IForm(0x73, 0, 0, 0, 1) else IForm(0x67, 1, 0, rs1, 0))
      else Some(RForm(0x33, rs1, 0, rs1, rs2, 0))
    else if rs2 == 0 then (if rs1 == 0 then None else Some(IForm(0x67, 0, 0, rs1, 0)))
    else Some(RForm(0x33, rs1, 0, 0, rs2, 0))
  }

  function ExpandUpper(w: bv32): Option<Format> {
    var rd := R5(w, 7);
    if rd == 2 then (if ImmAddi16sp(w) == 0 then None else Some(IForm(0x13, 2, 0, 2, Addi16spWide(w))))
    else if ImmLui(w) == 0 then None
    else Some(UForm(rd, LuiWide(w)))
  }

  function ExpandQuadrant0(w: bv32): Option<Format> {
    var op := OpcodeC(w);
    if op == 0x00 then (if ImmAddi4spn(w) == 0 then None else Some(IForm(0x13, R3(w, 2), 0, 2, ImmAddi4spn(w))))
    else if op == 0x02 then Some(IForm(0x03, R3(w, 2), 2, R3(w, 7), ImmWord(w)))
    else if op == 0x03 then Some(IForm(0x03, R3(w, 2), 3, R3(w, 7), ImmDouble(w)))
    else if op == 0x06 then Some(SForm(2, R3(w, 7), R3(w, 2), ImmWord(w)))
    else if op == 0x07 then Some(SForm(3, R3(w, 7), R3(w, 2), ImmDouble(w)))
    else None
  }

  function ExpandQuadrant1(w: bv32): Option<Format> {
    var op := OpcodeC(w);
    if op == 0x08 then Some(IForm(0x13, R5(w, 7), 0, R5(w, 7), Imm6Wide(w)))
    else if op == 0x09 then (if R5(w, 7) == 0 then None else Some(IForm(0x1b, R5(w, 7), 0, R5(w, 7), Imm6Wide(w))))
    else if op == 0x0a then Some(IForm(0x13, R5(w, 7), 0, 0, Imm6Wide(w)))
    else if op == 0x0b then ExpandUpper(w)
    else if op == 0x0c then ExpandAlu(w)
    else if op == 0x0d then Some(JForm(JumpWide(w)))
    else if op == 0x0e then Some(BForm(0, R3(w, 7), BranchWide(w)))
    else Some(BForm(1, R3(w, 7), BranchWide(w)))
  }

  function ExpandQuadrant2(w: bv32): Option<Format> {
    var op := OpcodeC(w);
    if op == 0x10 then Some(IForm(0x13, R5(w, 7), 1, R5(w, 7), Imm6(w)))
    else if op == 0x12 then (if R5(w, 7) == 0 then None else Some(IForm(0x03, R5(w, 7), 2, 2, ImmLwsp(w))))
    else if op == 0x13 then (if R5(w, 7) == 0 then None else Some(IForm(0x03, R5(w, 7), 3, 2, ImmLdsp(w))))
    else if op == 0x14 then ExpandMove(w)
    else if op == 0x16 then Some(SForm(2, 2, R5(w, 2), ImmSwsp(w)))
    else if op == 0x17 then Some(SForm(3, 2, R5(w, 2), ImmSdsp(w)))
    else None
  }

  function Expansion(w: bv32): Option<Format> {
    if OpcodeC(w) < 0x08 then ExpandQuadrant0(w)
    else if OpcodeC(w) < 0x10 then ExpandQuadrant1(w)
    else ExpandQuadrant2(w)
  }

  // ----- The encoders and the field extractors are inverse

  lemma DecodesI(op: bv32, rd: bv32, f3: bv32, rs1: bv32, imm: bv32)
    requires op < 128 && rd < 32 && f3 < 8 && rs1 < 32 && imm < 4096
    ensures var e := EncI(op, rd, f3, rs1, imm);
            && Opcode(e) == op && (e >> 7) & 31 == rd && Funct3(e) == f3 && (e >> 15) & 31 == rs1
            && (e >> 20) & 31 == imm & 31 && Funct7(e) == imm >> 5 && e >> 20 == imm
  {
  }

  lemma ImmediateI(op: bv32, rd: bv32, f3: bv32, rs1: bv32, imm: bv32)
    requires op < 128 && rd < 32 && f3 < 8 && rs1 < 32 && imm < 4096
    ensures ImmI(EncI(op, rd, f3, rs1, imm)) == SignExtend(imm as bv64, 11)
  {
    DecodesI(op, rd, f3, rs1, imm);
  }

  lemma DecodesR(op: bv32, rd: bv32, f3: bv32, rs1: bv32, rs2: bv32, f7: bv32)
    requires op < 128 && rd < 32 && f3 < 8 && rs1 < 32 && rs2 < 32 && f7 < 128
    ensures var e := EncR(op, rd, f3, rs1, rs2, f7);
            && Opcode(e) == op && (e >> 7) & 31 == rd && Funct3(e) == f3 && (e >> 15) & 31 == rs1
            && (e >> 20) & 31 == rs2 && Funct7(e) == f7
  {
  }

  lemma DecodesS(f3: bv32, rs1: bv32, rs2: bv32, imm: bv32)
    requires f3 < 8 && rs1 < 32 && rs2 < 32 && imm < 4096
    ensures var e := EncS(f3, rs1, rs2, imm);
            && Opcode(e) == 0x23 && Funct3(e) == f3 && (e >> 15) & 31 == rs1 && (e >> 20) & 31 == rs2
            && ImmS(e) == SignExtend(imm as bv64, 11)
  {
  }

  lemma DecodesB(f3: bv32, rs1: bv32, imm: bv32)
    requires f3 < 8 && rs1 < 32 && imm < 8192 && imm & 1 == 0
    ensures var e := EncB(f3, rs1, imm);
            && Opcode(e) == 0x63 && Funct3(e) == f3 && (e >> 15) & 31 == rs1 && (e >> 20) & 31 == 0
            && ImmB(e) == SignExtend(imm as bv64, 12)
  {
  }

  lemma DecodesJ(imm: bv32)
    requires imm < 0x20_0000 && imm & 1 == 0
    ensures var e := EncJ(imm);
            Opcode(e) == 0x6f && (e >> 7) & 31 == 0 && ImmJ(e) == SignExtend(imm as bv64, 20)
  {
  }

  lemma DecodesU(rd: bv32, imm: bv32)
    requires rd < 32 && imm < 0x10_0000
    ensures var e := EncU(rd, imm);
            Opcode(e) == 0x37 && (e >> 7) & 31 == rd && ImmU(e) == SignExtend((imm as bv64) << 12, 31)
  {
  }

  lemma IndexValues()
    ensures Index(0) == 0 && Index(1) == 1 && Index(2) == 2
  {
  }

  // ----- What the encodings decode to

  lemma AddImmediate(c: Core, word: bool, rd: bv32, rs1: bv32, imm: bv32)
    requires HasRegs(c) && rd < 32 && rs1 < 32 && imm < 4096
    ensures Decode32(c, EncI(if word then 0x1b else 0x13, rd, 0, rs1, imm)) ==
            Compute(Index(rd), c.gpr[Index(rs1)], Word(SignExtend(imm as bv64, 11)), Alu.Add, word)
  {
    hide EncI, Index, SignExtend, ImmI, Word;
    DecodesI(if word then 0x1b else 0x13, rd, 0, rs1, imm);
    ImmediateI(if word then 0x1b else 0x13, rd, 0, rs1, imm);
  }

  lemma LoadIs(c: Core, f3: bv32, rd: bv32, rs1: bv32, imm: bv32)
    requires HasRegs(c) && (f3 == 2 || f3 == 3) && rd < 32 && rs1 < 32 && imm < 2048
    ensures Decode32(c, EncI(0x03, rd, f3, rs1, imm)) ==
            LoadReg(Index(rd), Offset(c, Index(rs1), imm as bv64), if f3 == 2 then 4 else 8, true)
  {
    hide EncI, Index, SignExtend, ImmI, Word;
    DecodesI(0x03, rd, f3, rs1, imm);
    ImmediateI(0x03, rd, f3, rs1, imm);
    Unsigned(imm);
  }

  lemma StoreIs(c: Core, f3: bv32, rs1: bv32, rs2: bv32, imm: bv32)
    requires HasRegs(c) && (f3 == 2 || f3 == 3) && rs1 < 32 && rs2 < 32 && imm < 2048
    ensures Decode32(c, EncS(f3, rs1, rs2, imm)) ==
            StoreMem(Offset(c, Index(rs1), imm as bv64), if f3 == 2 then 4 else 8, c.gpr[Index(rs2)])
  {
    hide EncS, Index, SignExtend, ImmS, Word;
    DecodesS(f3, rs1, rs2, imm);
    Unsigned(imm);
  }

  lemma ShiftLeftIs(c: Core, r: bv32, shamt: bv32)
    requires HasRegs(c) && r < 32 && shamt < 64
    ensures Decode32(c, EncI(0x13, r, 1, r, shamt)) ==
            Compute(Index(r), c.gpr[Index(r)], Word(shamt as bv64), Alu.Sll, false)
  {
    hide EncI, Index, SignExtend, ImmI, BadShift, Word;
    DecodesI(0x13, r, 1, r, shamt);
    ImmediateI(0x13, r, 1, r, shamt);
    Unsigned(shamt);
    GoodShift(shamt);
  }

  lemma GoodShift(shamt: bv32)
    requires shamt < 64
    ensures !BadShift(shamt as bv64)
  {
  }

  lemma ShiftRightIs(c: Core, r: bv32, shamt: bv32, arithmetic: bool, imm: bv32)
    requires HasRegs(c) && r < 32 && shamt < 64 && imm == shamt | (if arithmetic then 0x400 else 0)
    ensures Decode32(c, EncI(0x13, r, 5, r, imm)) ==
            Compute(Index(r), c.gpr[Index(r)], Word(shamt as bv64), if arithmetic then Alu.Sra else Alu.Srl, false)
  {
    hide EncI, Index, Decode32, Word;
    ShiftFields(r, shamt, arithmetic, imm);
    ShiftRightDecoded(c, EncI(0x13, r, 5, r, imm), shamt as bv64, arithmetic);
  }

  lemma ShiftFields(r: bv32, shamt: bv32, arithmetic: bool, imm: bv32)
    requires r < 32 && shamt < 64 && imm == shamt | (if arithmetic then 0x400 else 0)
    ensures var e := EncI(0x13, r, 5, r, imm);
            && Opcode(e) == 0x13 && Funct3(e) == 5 && Rd(e) == Rs1(e) == Index(r)
            && ImmI(e) & 0x3f == shamt as bv64 && Funct7(e) >> 1 == if arithmetic then 0x10 else 0
  {
    hide EncI, Index, SignExtend, ImmI;
    ShiftAmount(shamt, arithmetic, imm);
    DecodesI(0x13, r, 5, r, imm);
    ImmediateI(0x13, r, 5, r, imm);
  }

  lemma ShiftRightDecoded(c: Core, e: bv32, shamt: bv64, arithmetic: bool)
    requires HasRegs(c) && Opcode(e) == 0x13 && Funct3(e) == 5
    requires ImmI(e) & 0x3f == shamt && Funct7(e) >> 1 == if arithmetic then 0x10 else 0
    ensures Decode32(c, e) ==
            Compute(Rd(e), c.gpr[Rs1(e)], Word(shamt), if arithmetic then Alu.Sra else Alu.Srl, false)
  {
    hide Opcode, Funct3, Funct7, ImmI, Rd, Rs1, Word;
  }

  lemma ShiftAmount(shamt: bv32, arithmetic: bool, imm: bv32)
    requires shamt < 64 && imm == shamt | (if arithmetic then 0x400 else 0)
    ensures imm < 4096 && SignExtend(imm as bv64, 11) & 0x3f == shamt as bv64
    ensures (imm >> 5) >> 1 == if arithmetic then 0x10 else 0
  {
  }

  lemma AndImmediate(c: Core, r: bv32, imm: bv32)
    requires HasRegs(c) && r < 32 && imm < 4096
    ensures Decode32(c, EncI(0x13, r, 7, r, imm)) ==
            Compute(Index(r), c.gpr[Index(r)], Word(SignExtend(imm as bv64, 11)), Alu.AndOp, false)
  {
    hide EncI, Index, SignExtend, ImmI, Word;
    DecodesI(0x13, r, 7, r, imm);
    ImmediateI(0x13, r, 7, r, imm);
  }

  /** What a register-register operation decodes to. */
  lemma RegisterOp(c: Core, op: bv32, rd: bv32, f3: bv32, rs1: bv32, rs2: bv32, f7: bv32)
    requires HasRegs(c) && (op == 0x33 || op == 0x3b) && rd < 32 && f3 < 8 && rs1 < 32 && rs2 < 32 && f7 < 128
    ensures var e := EncR(op, rd, f3, rs1, rs2, f7);
            && Funct3(e) == f3 && Funct7(e) == f7
            && Decode32(c, e) == ComputeIf(Index(rd), c.gpr[Index(rs1)], c.gpr[Index(rs2)],
                                           if op == 0x33 then RegOp(e) else RegOp32(e), op == 0x3b)
  {
    hide EncR, Index, RegOp, RegOp32, Funct3, Funct7;
    DecodesR(op, rd, f3, rs1, rs2, f7);
  }

  lemma JumpIs(c: Core, imm: bv32)
    requires HasRegs(c) && imm < 0x20_0000 && imm & 1 == 0
    ensures Decode32(c, EncJ(imm)) == JumpAndLink(0, Wrap64(c.pc + 4), FromPc(c, SignExtend(imm as bv64, 20)))
  {
    hide EncJ, Index, SignExtend, ImmJ, Word;
    DecodesJ(imm);
    IndexValues();
  }

  lemma BranchZero(c: Core, f3: bv32, rs1: bv32, imm: bv32)
    requires HasRegs(c) && c.gpr[0] == 0 && f3 <= 1 && rs1 < 32 && imm < 8192 && imm & 1 == 0
    ensures Decode32(c, EncB(f3, rs1, imm)) ==
            if (c.gpr[Index(rs1)] == 0) == (f3 == 0) then JumpTo(FromPc(c, SignExtend(imm as bv64, 12))) else Nothing
  {
    hide EncB, Index, SignExtend, ImmB, Word;
    DecodesB(f3, rs1, imm);
    IndexValues();
  }

  lemma UpperIs(c: Core, rd: bv32, imm: bv32)
    requires HasRegs(c) && rd < 32 && imm < 0x10_0000
    ensures Decode32(c, EncU(rd, imm)) == SetReg(Index(rd), Word(SignExtend((imm as bv64) << 12, 31)))
  {
    hide EncU, Index, SignExtend, ImmU, Word;
    DecodesU(rd, imm);
  }

  lemma JumpRegIs(c: Core, rd: bv32, rs1: bv32)
    requires HasRegs(c) && rd <= 1 && rs1 < 32
    ensures Decode32(c, EncI(0x67, rd, 0, rs1, 0)) == JumpAndLink(Index(rd), Wrap64(c.pc + 4), c.gpr[Index(rs1)])
  {
    hide EncI, Index, SignExtend, ImmI, Word;
    DecodesI(0x67, rd, 0, rs1, 0);
    ImmediateI(0x67, rd, 0, rs1, 0);
    ZeroIsZero();
    ZeroExtends();
  }

  lemma BreakIs(c: Core)
    requires HasRegs(c)
    ensures Decode32(c, EncI(0x73, 0, 0, 0, 1)) == Trap(3)
  {
    hide EncI, Index;
    DecodesI(0x73, 0, 0, 0, 1);
    IndexValues();
  }

  lemma ZeroExtends()
    ensures SignExtend(0, 11) & !1 == 0
  {
  }

  lemma ZeroIsZero()
    ensures Word(0) == 0
  {
    DigitsOfZero(64);
  }

  // ----- Widening a short field first and sign-extending the wide one is sign-extending

  lemma Widen6(x: bv32)
    requires x < 64
    ensures Widen(x, 5, 11) < 4096 && SignExtend(Widen(x, 5, 11) as bv64, 11) == SignExtend(x as bv64, 5)
  {
  }

  lemma Widen9(x: bv32)
    requires x < 512
    ensures Widen(x, 8, 12) < 8192 && SignExtend(Widen(x, 8, 12) as bv64, 12) == SignExtend(x as bv64, 8)
    ensures x & 1 == 0 ==> Widen(x, 8, 12) & 1 == 0
  {
  }

  lemma Widen10(x: bv32)
    requires x < 1024
    ensures Widen(x, 9, 11) < 4096 && SignExtend(Widen(x, 9, 11) as bv64, 11) == SignExtend(x as bv64, 9)
  {
  }

  lemma Widen12(x: bv32)
    requires x < 4096
    ensures Widen(x, 11, 20) < 0x20_0000 && (x & 1 == 0 ==> Widen(x, 11, 20) & 1 == 0)
  {
  }

  lemma Extend12(x: bv32)
    requires x < 4096
    ensures SignExtend(Widen(x, 11, 20) as bv64, 20) == SignExtend(x as bv64, 11)
  {
    hide Widen, SignExtend;
    if (x >> 11) & 1 == 1 {
      Widen12Negative(x);
      Extend12Negative(x, Widen(x, 11, 20));
    } else {
      PositiveExtends(x);
    }
  }

  lemma PositiveExtends(x: bv32)
    requires x < 4096 && (x >> 11) & 1 != 1
    ensures SignExtend(Widen(x, 11, 20) as bv64, 20) == SignExtend(x as bv64, 11)
  {
  }

  lemma Widen12Negative(x: bv32)
    requires (x >> 11) & 1 == 1 && x < 4096
    ensures Widen(x, 11, 20) == x | 0x1f_f000
  {
  }

  lemma Extend12Negative(x: bv32, v: bv32)
    requires x < 4096 && (x >> 11) & 1 == 1 && v == x | 0x1f_f000
    ensures SignExtend(v as bv64, 20) == SignExtend(x as bv64, 11)
  {
  }

  /** An unsigned immediate shorter than the field is not negative in it. */
  lemma Unsigned(x: bv32)
    requires x < 2048
    ensures SignExtend(x as bv64, 11) == x as bv64
  {
  }

  lemma EvenExtends(x: bv32, sign: bv64)
    requires x & 1 == 0 && 0 < sign < 63
    ensures SignExtend(x as bv64, sign) & 1 == 0
  {
  }

  // ----- Immediates of the compressed formats

  lemma Ranges(w: bv32)
    ensures ImmAddi4spn(w) < 1024 && ImmWord(w) < 128 && ImmDouble(w) < 256 && Imm6(w) < 64
    ensures ImmAddi16sp(w) < 1024 && ImmLwsp(w) < 256 && ImmLdsp(w) < 512 && ImmSwsp(w) < 256 && ImmSdsp(w) < 512
    ensures ImmJump(w) < 4096 && ImmJump(w) & 1 == 0 && ImmBranch(w) < 512 && ImmBranch(w) & 1 == 0
  {
  }

  lemma Registers(w: bv32)
    ensures R3(w, 2) < 32 && R3(w, 7) < 32 && R5(w, 2) < 32 && R5(w, 7) < 32
    ensures RegC(w, 2) == Index(R3(w, 2)) && RegC(w, 7) == Index(R3(w, 7))
    ensures Reg(w, 2) == Index(R5(w, 2)) && Reg(w, 7) == Index(R5(w, 7))
    ensures Reg(w, 2) == 0 <==> R5(w, 2) == 0
    ensures Reg(w, 7) == 0 <==> R5(w, 7) == 0
    ensures Reg(w, 7) == 2 <==> R5(w, 7) == 2
  {
  }

  lemma Immediate6(w: bv32)
    ensures Imm6Wide(w) < 4096 && SignExtend(Imm6Wide(w) as bv64, 11) == SImm6(w)
  {
    hide Imm6, Widen, SignExtend;
    Ranges(w);
    Widen6(Imm6(w));
  }

  lemma ImmediateBranch(w: bv32)
    ensures BranchWide(w) < 8192 && BranchWide(w) & 1 == 0
    ensures SignExtend(BranchWide(w) as bv64, 12) == SignExtend(ImmBranch(w) as bv64, 8)
    ensures SignExtend(ImmBranch(w) as bv64, 8) & 1 == 0
  {
    hide ImmBranch, Widen, SignExtend;
    Ranges(w);
    Widen9(ImmBranch(w));
    EvenExtends(ImmBranch(w), 8);
  }

  lemma JumpRange(w: bv32)
    ensures ImmJump(w) < 4096 && ImmJump(w) & 1 == 0
  {
  }

  lemma ImmediateJump(w: bv32)
    ensures JumpWide(w) < 0x20_0000 && JumpWide(w) & 1 == 0
    ensures SignExtend(JumpWide(w) as bv64, 20) == SignExtend(ImmJump(w) as bv64, 11)
    ensures SignExtend(ImmJump(w) as bv64, 11) & 1 == 0
  {
    hide ImmJump, Widen, SignExtend;
    JumpRange(w);
    WidenEven(ImmJump(w));
  }

  lemma WidenEven(x: bv32)
    requires x < 4096 && x & 1 == 0
    ensures Widen(x, 11, 20) < 0x20_0000 && Widen(x, 11, 20) & 1 == 0
    ensures SignExtend(Widen(x, 11, 20) as bv64, 20) == SignExtend(x as bv64, 11)
    ensures SignExtend(x as bv64, 11) & 1 == 0
  {
    hide Widen, SignExtend;
    Widen12(x);
    Extend12(x);
    EvenExtends(x, 11);
  }

  lemma ImmediateUpper(w: bv32)
    ensures LuiWide(w) < 0x10_0000
    ensures SignExtend((LuiWide(w) as bv64) << 12, 31) == SignExtend(ImmLui(w) as bv64, 17)
    ensures ImmLui(w) != 0 ==> SignExtend(ImmLui(w) as bv64, 17) != 0
  {
    if ImmLui(w) != 0 {
      NonZeroExtends(ImmLui(w), 17);
    }
  }

  lemma ImmediateAddi16sp(w: bv32)
    ensures Addi16spWide(w) < 4096
    ensures SignExtend(Addi16spWide(w) as bv64, 11) == SignExtend(ImmAddi16sp(w) as bv64, 9)
    ensures ImmAddi16sp(w) != 0 ==> SignExtend(ImmAddi16sp(w) as bv64, 9) != 0
  {
    hide ImmAddi16sp, Widen, SignExtend;
    Ranges(w);
    Widen10(ImmAddi16sp(w));
    if ImmAddi16sp(w) != 0 {
      NonZeroExtends(ImmAddi16sp(w), 9);
    }
  }

  lemma NonZeroExtends(x: bv32, sign: bv64)
    requires x != 0 && sign < 63
    ensures SignExtend(x as bv64, sign) != 0
  {
  }

  // ----- Effects of actions that need not be equal as actions

  /** The state the hart keeps between instructions: x0 is zero and the counter is even. */
  predicate Steady(m: Machine) {
    WellFormed(m) && m.core.gpr[0] == 0 && m.core.pc % 2 == 0
  }

  lemma SumIs(a: u64, b: u64)
    ensures Alu.Exec(a, b, Alu.Add, false) == Wrap64(a + b)
  {
  }

  /** Setting a register to a sum is adding. */
  lemma AddIsSet(m: Machine, rd: RegNo, a: u64, b: u64)
    requires WellFormed(m)
    ensures Perform(m, Compute(rd, a, b, Alu.Add, false)) == Perform(m, SetReg(rd, Wrap64(a + b)))
  {
    hide Alu.Exec, SetGpr, WriteReg;
    SumIs(a, b);
  }

  lemma ByZero(a: u64)
    ensures Alu.Exec(a, 0, Alu.Add) == a && Alu.Exec(a, 0, Alu.Sll) == a
    ensures Alu.Exec(a, 0, Alu.Srl) == a && Alu.Exec(a, 0, Alu.Sra) == a
  {
    assert Exp2(0) == 1;
  }

  lemma KeepsReg(m: Machine, rd: RegNo)
    requires WellFormed(m)
    ensures WriteReg(m, rd, m.core.gpr[rd]) == m
  {
    assert m.core.gpr[rd := m.core.gpr[rd]] == m.core.gpr;
  }

  /** Doing nothing is computing with a zero operand. */
  lemma UnlessZeroIsCompute(m: Machine, rd: RegNo, imm: bv64, op: Alu.Op)
    requires WellFormed(m) && op in {Alu.Add, Alu.Sll, Alu.Srl, Alu.Sra}
    ensures var a := Compute(rd, m.core.gpr[rd], Word(imm), op, false);
            Perform(m, UnlessZero(imm, a)) == Perform(m, a)
  {
    hide Alu.Exec, Word, SetGpr;
    if imm == 0 {
      ZeroIsZero();
      ByZero(m.core.gpr[rd]);
      KeepsReg(m, rd);
    }
  }

  lemma EvenTarget(c: Core, imm: bv64)
    requires c.pc % 2 == 0 && imm & 1 == 0
    ensures FromPc(c, imm) % 2 == 0
  {
    hide Word;
    WordParity(imm);
    EvenSum(c.pc, Word(imm));
  }

  lemma EvenSum(a: int, b: int)
    requires a % 2 == 0 && b % 2 == 0
    ensures Wrap64(a + b) % 2 == 0
  {
  }

  /** An unchecked jump to an even address is a checked one, and a link to x0 is none. */
  lemma EvenJumps(m: Machine, link: u64, target: u64)
    requires WellFormed(m) && target % 2 == 0
    ensures Perform(m, GoTo(target)) == Perform(m, JumpTo(target)) == Perform(m, JumpAndLink(0, link, target))
  {
    hide RaiseTrap;
  }

  // ----- Refinement

  lemma CaseUpper(c: Core, w: bv32)
    requires HasRegs(c) && OpcodeC(w) == 0x0b
    ensures Expansion(w) == ExpandUpper(w) && DecodeC(c, w) == DecodeCUpper(c, w)
  {
  }

  lemma CaseAlu(c: Core, w: bv32)
    requires HasRegs(c) && OpcodeC(w) == 0x0c
    ensures Expansion(w) == ExpandAlu(w) && DecodeC(c, w) == DecodeCAlu(c, w)
  {
  }

  lemma CaseMove(c: Core, w: bv32)
    requires HasRegs(c) && OpcodeC(w) == 0x14
    ensures Expansion(w) == ExpandMove(w) && DecodeC(c, w) == DecodeCMove(c, w)
  {
  }

  // Most decode to the very same action.

  lemma RefinesLw(c: Core, w: bv32)
    requires HasRegs(c) && OpcodeC(w) == 0x02 && Expansion(w).Some?
    ensures Decode32(c, Encode(Expansion(w).value)) == DecodeC(c, w)
  {
    hide Cat, OpcodeC, Index, R3, R5, RegC, Reg, Decode32, EncI;
    Ranges(w);
    Registers(w);
    LoadIs(c, 2, R3(w, 2), R3(w, 7), ImmWord(w));
  }

  lemma RefinesLd(c: Core, w: bv32)
    requires HasRegs(c) && OpcodeC(w) == 0x03 && Expansion(w).Some?
    ensures Decode32(c, Encode(Expansion(w).value)) == DecodeC(c, w)
  {
    hide Cat, OpcodeC, Index, R3, R5, RegC, Reg, Decode32, EncI;
    Ranges(w);
    Registers(w);
    LoadIs(c, 3, R3(w, 2), R3(w, 7), ImmDouble(w));
  }

  lemma RefinesSw(c: Core, w: bv32)
    requires HasRegs(c) && OpcodeC(w) == 0x06 && Expansion(w).Some?
    ensures Decode32(c, Encode(Expansion(w).value)) == DecodeC(c, w)
  {
    hide Cat, OpcodeC, Index, R3, R5, RegC, Reg, Decode32, EncS;
    Ranges(w);
    Registers(w);
    StoreIs(c, 2, R3(w, 7), R3(w, 2), ImmWord(w));
  }

  lemma RefinesSd(c: Core, w: bv32)
    requires HasRegs(c) && OpcodeC(w) == 0x07 && Expansion(w).Some?
    ensures Decode32(c, Encode(Expansion(w).value)) == DecodeC(c, w)
  {
    hide Cat, OpcodeC, Index, R3, R5, RegC, Reg, Decode32, EncS;
    Ranges(w);
    Registers(w);
    StoreIs(c, 3, R3(w, 7), R3(w, 2), ImmDouble(w));
  }

  lemma RefinesLwsp(c: Core, w: bv32)
    requires HasRegs(c) && OpcodeC(w) == 0x12 && Expansion(w).Some?
    ensures Decode32(c, Encode(Expansion(w).value)) == DecodeC(c, w)
  {
    hide Cat, OpcodeC, Index, R3, R5, RegC, Reg, Decode32, EncI;
    Ranges(w);
    Registers(w);
    IndexValues();
    LoadIs(c, 2, R5(w, 7), 2, ImmLwsp(w));
  }

  lemma RefinesLdsp(c: Core, w: bv32)
    requires HasRegs(c) && OpcodeC(w) == 0x13 && Expansion(w).Some?
    ensures Decode32(c, Encode(Expansion(w).value)) == DecodeC(c, w)
  {
    hide Cat, OpcodeC, Index, R3, R5, RegC, Reg, Decode32, EncI;
    Ranges(w);
    Registers(w);
    IndexValues();
    LoadIs(c, 3, R5(w, 7), 2, ImmLdsp(w));
  }

  lemma RefinesSwsp(c: Core, w: bv32)
    requires HasRegs(c) && OpcodeC(w) == 0x16 && Expansion(w).Some?
    ensures Decode32(c, Encode(Expansion(w).value)) == DecodeC(c, w)
  {
    hide Cat, OpcodeC, Index, R3, R5, RegC, Reg, Decode32, EncS;
    Ranges(w);
    Registers(w);
    IndexValues();
    StoreIs(c, 2, 2, R5(w, 2), ImmSwsp(w));
  }

  lemma RefinesSdsp(c: Core, w: bv32)
    requires HasRegs(c) && OpcodeC(w) == 0x17 && Expansion(w).Some?
    ensures Decode32(c, Encode(Expansion(w).value)) == DecodeC(c, w)
  {
    hide Cat, OpcodeC, Index, R3, R5, RegC, Reg, Decode32, EncS;
    Ranges(w);
    Registers(w);
    IndexValues();
    StoreIs(c, 3, 2, R5(w, 2), ImmSdsp(w));
  }

  lemma RefinesAddiw(c: Core, w: bv32)
    requires HasRegs(c) && OpcodeC(w) == 0x09 && Expansion(w).Some?
    ensures Decode32(c, Encode(Expansion(w).value)) == DecodeC(c, w)
  {
    hide Cat, OpcodeC, Index, R3, R5, RegC, Reg, Decode32, EncI, SImm6, Imm6Wide;
    Registers(w);
    Immediate6(w);
    AddImmediate(c, true, R5(w, 7), R5(w, 7), Imm6Wide(w));
  }

  lemma RefinesLui(c: Core, w: bv32)
    requires HasRegs(c) && OpcodeC(w) == 0x0b && R5(w, 7) != 2 && Expansion(w).Some?
    ensures Decode32(c, Encode(Expansion(w).value)) == DecodeC(c, w)
  {
    hide Cat, OpcodeC, Index, R3, R5, RegC, Reg, Decode32, EncU, LuiWide, ImmLui, SignExtend, Word, Expansion, DecodeC;
    CaseUpper(c, w);
    Registers(w);
    ImmediateUpper(w);
    UpperIs(c, R5(w, 7), LuiWide(w));
  }

  lemma RefinesAndi(c: Core, w: bv32)
    requires HasRegs(c) && OpcodeC(w) == 0x0c && Cat(w, 11, 11, 0) != 0 && Cat(w, 10, 10, 0) == 0 && Expansion(w).Some?
    ensures Decode32(c, Encode(Expansion(w).value)) == DecodeC(c, w)
  {
    hide Cat, OpcodeC, Index, R3, R5, RegC, Reg, Decode32, EncI, SImm6, Imm6Wide, Expansion, DecodeC;
    CaseAlu(c, w);
    Registers(w);
    Immediate6(w);
    AndImmediate(c, R3(w, 7), Imm6Wide(w));
  }

  lemma RefinesSub(c: Core, w: bv32)
    requires HasRegs(c) && OpcodeC(w) == 0x0c && Cat(w, 11, 11, 0) != 0 && Cat(w, 10, 10, 0) != 0
    requires Cat(w, 6, 5, 0) == 0 && Cat(w, 12, 12, 0) == 0 && Expansion(w).Some?
    ensures Decode32(c, Encode(Expansion(w).value)) == DecodeC(c, w)
  {
    hide Cat, OpcodeC, Index, R3, R5, RegC, Reg, Decode32, EncR, Funct3, Funct7, Expansion, DecodeC;
    CaseAlu(c, w);
    Registers(w);
    RegisterOp(c, 0x33, R3(w, 7), 0, R3(w, 7), R3(w, 2), 0x20);
  }

  lemma RefinesSubw(c: Core, w: bv32)
    requires HasRegs(c) && OpcodeC(w) == 0x0c && Cat(w, 11, 11, 0) != 0 && Cat(w, 10, 10, 0) != 0
    requires Cat(w, 6, 5, 0) == 0 && Cat(w, 12, 12, 0) != 0 && Expansion(w).Some?
    ensures Decode32(c, Encode(Expansion(w).value)) == DecodeC(c, w)
  {
    hide Cat, OpcodeC, Index, R3, R5, RegC, Reg, Decode32, EncR, Funct3, Funct7, Expansion, DecodeC;
    CaseAlu(c, w);
    Registers(w);
    RegisterOp(c, 0x3b, R3(w, 7), 0, R3(w, 7), R3(w, 2), 0x20);
  }

  lemma RefinesXor(c: Core, w: bv32)
    requires HasRegs(c) && OpcodeC(w) == 0x0c && Cat(w, 11, 11, 0) != 0 && Cat(w, 10, 10, 0) != 0
    requires Cat(w, 6, 5, 0) == 1 && Cat(w, 12, 12, 0) == 0 && Expansion(w).Some?
    ensures Decode32(c, Encode(Expansion(w).value)) == DecodeC(c, w)
  {
    hide Cat, OpcodeC, Index, R3, R5, RegC, Reg, Decode32, EncR, Funct3, Funct7, Expansion, DecodeC;
    CaseAlu(c, w);
    Registers(w);
    RegisterOp(c, 0x33, R3(w, 7), 4, R3(w, 7), R3(w, 2), 0);
  }

  lemma RefinesAddw(c: Core, w: bv32)
    requires HasRegs(c) && OpcodeC(w) == 0x0c && Cat(w, 11, 11, 0) != 0 && Cat(w, 10, 10, 0) != 0
    requires Cat(w, 6, 5, 0) == 1 && Cat(w, 12, 12, 0) != 0 && Expansion(w).Some?
    ensures Decode32(c, Encode(Expansion(w).value)) == DecodeC(c, w)
  {
    hide Cat, OpcodeC, Index, R3, R5, RegC, Reg, Decode32, EncR, Funct3, Funct7, Expansion, DecodeC;
    CaseAlu(c, w);
    Registers(w);
    RegisterOp(c, 0x3b, R3(w, 7), 0, R3(w, 7), R3(w, 2), 0);
  }

  lemma RefinesOr(c: Core, w: bv32)
    requires HasRegs(c) && OpcodeC(w) == 0x0c && Cat(w, 11, 11, 0) != 0 && Cat(w, 10, 10, 0) != 0
    requires Cat(w, 6, 5, 0) == 2 && Cat(w, 12, 12, 0) == 0 && Expansion(w).Some?
    ensures Decode32(c, Encode(Expansion(w).value)) == DecodeC(c, w)
  {
    hide Cat, OpcodeC, Index, R3, R5, RegC, Reg, Decode32, EncR, Funct3, Funct7, Expansion, DecodeC;
    CaseAlu(c, w);
    Registers(w);
    RegisterOp(c, 0x33, R3(w, 7), 6, R3(w, 7), R3(w, 2), 0);
  }

  lemma RefinesAnd(c: Core, w: bv32)
    requires HasRegs(c) && OpcodeC(w) == 0x0c && Cat(w, 11, 11, 0) != 0 && Cat(w, 10, 10, 0) != 0
    requires Cat(w, 6, 5, 0) == 3 && Cat(w, 12, 12, 0) == 0 && Expansion(w).Some?
    ensures Decode32(c, Encode(Expansion(w).value)) == DecodeC(c, w)
  {
    hide Cat, OpcodeC, Index, R3, R5, RegC, Reg, Decode32, EncR, Funct3, Funct7, Expansion, DecodeC;
    CaseAlu(c, w);
    Registers(w);
    RegisterOp(c, 0x33, R3(w, 7), 7, R3(w, 7), R3(w, 2), 0);
  }

  lemma RefinesAdd(c: Core, w: bv32)
    requires HasRegs(c) && OpcodeC(w) == 0x14 && R5(w, 2) != 0 && Cat(w, 12, 12, 0) != 0 && Expansion(w).Some?
    ensures Decode32(c, Encode(Expansion(w).value)) == DecodeC(c, w)
  {
    hide Cat, OpcodeC, Index, R3, R5, RegC, Reg, Decode32, EncR, Funct3, Funct7, Expansion, DecodeC;
    CaseMove(c, w);
    Registers(w);
    RegisterOp(c, 0x33, R5(w, 7), 0, R5(w, 7), R5(w, 2), 0);
  }

  lemma RefinesBreak(c: Core, w: bv32)
    requires HasRegs(c) && OpcodeC(w) == 0x14 && R5(w, 2) == 0 && R5(w, 7) == 0 && Expansion(w).Some?
    ensures Decode32(c, Encode(Expansion(w).value)) == DecodeC(c, w)
  {
    hide Cat, OpcodeC, Index, R3, R5, RegC, Reg, Decode32, EncI, Expansion, DecodeC;
    CaseMove(c, w);
    Registers(w);
    BreakIs(c);
  }

  // The others decode to an action with the same effect.

  lemma RefinesAddi(m: Machine, w: bv32)
    requires Steady(m) && OpcodeC(w) == 0x08 && Expansion(w).Some?
    ensures Perform(m, Decode32(m.core, Encode(Expansion(w).value))) == Perform(m, DecodeC(m.core, w))
  {
    hide Cat, OpcodeC, Index, R3, R5, RegC, Reg, Decode32, Perform, EncI, SImm6, Imm6Wide;
    Registers(w);
    Immediate6(w);
    AddImmediate(m.core, false, R5(w, 7), R5(w, 7), Imm6Wide(w));
    UnlessZeroIsCompute(m, Reg(w, 7), SImm6(w), Alu.Add);
  }

  lemma RefinesLi(m: Machine, w: bv32)
    requires Steady(m) && OpcodeC(w) == 0x0a && Expansion(w).Some?
    ensures Perform(m, Decode32(m.core, Encode(Expansion(w).value))) == Perform(m, DecodeC(m.core, w))
  {
    hide Cat, OpcodeC, Index, R3, R5, RegC, Reg, Decode32, Perform, EncI, SImm6, Imm6Wide, Word;
    Registers(w);
    IndexValues();
    Immediate6(w);
    AddImmediate(m.core, false, R5(w, 7), 0, Imm6Wide(w));
    AddIsSet(m, Reg(w, 7), 0, Word(SImm6(w)));
  }

  lemma CompressedAddi4spn(c: Core, w: bv32)
    requires HasRegs(c) && OpcodeC(w) == 0x00 && ImmAddi4spn(w) as bv64 != 0
    ensures DecodeC(c, w) == SetReg(RegC(w, 2), Offset(c, 2, ImmAddi4spn(w) as bv64))
  {
    hide OpcodeC, ImmAddi4spn, RegC, Offset;
  }

  lemma ExpandedAddi4spn(c: Core, w: bv32)
    requires HasRegs(c) && OpcodeC(w) == 0x00 && Expansion(w).Some?
    ensures ImmAddi4spn(w) != 0
    ensures Decode32(c, Encode(Expansion(w).value)) ==
            Compute(RegC(w, 2), c.gpr[2], Word(ImmAddi4spn(w) as bv64), Alu.Add, false)
  {
    hide Cat, OpcodeC, Index, R3, R5, RegC, Reg, Decode32, EncI, Word, SignExtend, ImmAddi4spn;
    Ranges(w);
    Registers(w);
    IndexValues();
    Unsigned(ImmAddi4spn(w));
    AddImmediate(c, false, R3(w, 2), 2, ImmAddi4spn(w));
  }

  lemma NonZero(x: bv32)
    requires x != 0
    ensures x as bv64 != 0
  {
  }

  lemma RefinesAddi4spn(m: Machine, w: bv32)
    requires Steady(m) && OpcodeC(w) == 0x00 && Expansion(w).Some?
    ensures Perform(m, Decode32(m.core, Encode(Expansion(w).value))) == Perform(m, DecodeC(m.core, w))
  {
    hide OpcodeC, RegC, Decode32, DecodeC, Perform, Encode, Word, ImmAddi4spn, Expansion;
    ExpandedAddi4spn(m.core, w);
    NonZero(ImmAddi4spn(w));
    CompressedAddi4spn(m.core, w);
    AddIsSet(m, RegC(w, 2), m.core.gpr[2], Word(ImmAddi4spn(w) as bv64));
  }

  lemma RefinesAddi16sp(m: Machine, w: bv32)
    requires Steady(m) && OpcodeC(w) == 0x0b && R5(w, 7) == 2 && Expansion(w).Some?
    ensures Perform(m, Decode32(m.core, Encode(Expansion(w).value))) == Perform(m, DecodeC(m.core, w))
  {
    hide Cat, OpcodeC, Index, R3, R5, RegC, Reg, Decode32, Perform, EncI, Word, SignExtend, ImmAddi16sp, Addi16spWide,
      Expansion, DecodeC;
    CaseUpper(m.core, w);
    Registers(w);
    IndexValues();
    ImmediateAddi16sp(w);
    AddImmediate(m.core, false, 2, 2, Addi16spWide(w));
    AddIsSet(m, 2, m.core.gpr[2], Word(SignExtend(ImmAddi16sp(w) as bv64, 9)));
  }

  lemma RefinesSlli(m: Machine, w: bv32)
    requires Steady(m) && OpcodeC(w) == 0x10 && Expansion(w).Some?
    ensures Perform(m, Decode32(m.core, Encode(Expansion(w).value))) == Perform(m, DecodeC(m.core, w))
  {
    hide Cat, OpcodeC, Index, R3, R5, RegC, Reg, Decode32, Perform, EncI, Imm6;
    Ranges(w);
    Registers(w);
    ShiftLeftIs(m.core, R5(w, 7), Imm6(w));
    UnlessZeroIsCompute(m, Reg(w, 7), Imm6(w) as bv64, Alu.Sll);
  }

  lemma RefinesSrli(m: Machine, w: bv32)
    requires Steady(m) && OpcodeC(w) == 0x0c && Cat(w, 11, 11, 0) == 0 && Cat(w, 10, 10, 0) == 0 && Expansion(w).Some?
    ensures Perform(m, Decode32(m.core, Encode(Expansion(w).value))) == Perform(m, DecodeC(m.core, w))
  {
    hide Cat, OpcodeC, Index, R3, R5, RegC, Reg, Decode32, Perform, EncI, Imm6, Expansion, DecodeC;
    CaseAlu(m.core, w);
    Ranges(w);
    Registers(w);
    ShiftRightIs(m.core, R3(w, 7), Imm6(w), false, Imm6(w) | 0);
    UnlessZeroIsCompute(m, RegC(w, 7), Imm6(w) as bv64, Alu.Srl);
  }

  lemma RefinesSrai(m: Machine, w: bv32)
    requires Steady(m) && OpcodeC(w) == 0x0c && Cat(w, 11, 11, 0) == 0 && Cat(w, 10, 10, 0) != 0 && Expansion(w).Some?
    ensures Perform(m, Decode32(m.core, Encode(Expansion(w).value))) == Perform(m, DecodeC(m.core, w))
  {
    hide Cat, OpcodeC, Index, R3, R5, RegC, Reg, Decode32, Perform, EncI, Imm6, Expansion, DecodeC;
    CaseAlu(m.core, w);
    Ranges(w);
    Registers(w);
    ShiftRightIs(m.core, R3(w, 7), Imm6(w), true, Imm6(w) | 0x400);
    UnlessZeroIsCompute(m, RegC(w, 7), Imm6(w) as bv64, Alu.Sra);
  }

  lemma RefinesMv(m: Machine, w: bv32)
    requires Steady(m) && OpcodeC(w) == 0x14 && R5(w, 2) != 0 && Cat(w, 12, 12, 0) == 0 && Expansion(w).Some?
    ensures Perform(m, Decode32(m.core, Encode(Expansion(w).value))) == Perform(m, DecodeC(m.core, w))
  {
    hide Cat, OpcodeC, Index, R3, R5, RegC, Reg, Decode32, Perform, EncR, Funct3, Funct7, Expansion, DecodeC;
    CaseMove(m.core, w);
    Registers(w);
    IndexValues();
    RegisterOp(m.core, 0x33, R5(w, 7), 0, 0, R5(w, 2), 0);
    AddIsSet(m, Reg(w, 7), 0, m.core.gpr[Reg(w, 2)]);
  }

  lemma RefinesJump(m: Machine, w: bv32)
    requires Steady(m) && OpcodeC(w) == 0x0d && Expansion(w).Some?
    ensures Perform(m, Decode32(m.core, Encode(Expansion(w).value))) == Perform(m, DecodeC(m.core, w))
  {
    hide Cat, OpcodeC, Index, R3, R5, RegC, Reg, Decode32, Perform, EncJ, SignExtend, ImmJump, JumpWide, FromPc;
    ImmediateJump(w);
    JumpIs(m.core, JumpWide(w));
    var offset := SignExtend(ImmJump(w) as bv64, 11);
    EvenTarget(m.core, offset);
    EvenJumps(m, Wrap64(m.core.pc + 4), FromPc(m.core, offset));
  }

  lemma RefinesBeqz(m: Machine, w: bv32)
    requires Steady(m) && OpcodeC(w) == 0x0e && Expansion(w).Some?
    ensures Perform(m, Decode32(m.core, Encode(Expansion(w).value))) == Perform(m, DecodeC(m.core, w))
  {
    hide Cat, OpcodeC, Index, R3, R5, RegC, Reg, Decode32, Perform, EncB, SignExtend, ImmBranch, BranchWide, FromPc;
    Registers(w);
    ImmediateBranch(w);
    BranchZero(m.core, 0, R3(w, 7), BranchWide(w));
    var offset := SignExtend(ImmBranch(w) as bv64, 8);
    EvenTarget(m.core, offset);
    EvenJumps(m, 0, FromPc(m.core, offset));
  }

  lemma RefinesBnez(m: Machine, w: bv32)
    requires Steady(m) && OpcodeC(w) == 0x0f && Expansion(w).Some?
    ensures Perform(m, Decode32(m.core, Encode(Expansion(w).value))) == Perform(m, DecodeC(m.core, w))
  {
    hide Cat, OpcodeC, Index, R3, R5, RegC, Reg, Decode32, Perform, EncB, SignExtend, ImmBranch, BranchWide, FromPc;
    Registers(w);
    ImmediateBranch(w);
    BranchZero(m.core, 1, R3(w, 7), BranchWide(w));
    var offset := SignExtend(ImmBranch(w) as bv64, 8);
    EvenTarget(m.core, offset);
    EvenJumps(m, 0, FromPc(m.core, offset));
  }

  // ----- The refinement

  /** Jumps through a register: the one form that clears the lowest bit of its target. */
  predicate IsJumpReg(w: bv32) {
    OpcodeC(w) == 0x14 && R5(w, 2) == 0 && R5(w, 7) != 0
  }

  predicate IsLink(w: bv32) {
    IsJumpReg(w) && Cat(w, 12, 12, 0) != 0
  }

  function Expand(w: bv32): bv32
    requires Expansion(w).Some?
  {
    Encode(Expansion(w).value)
  }

  /** The outcome with its link register two bytes after the instruction. */
  function Relinked(m: Machine, o: Outcome): Outcome
    requires WellFormed(o.m)
  {
    o.(m := WriteReg(o.m, 1, Wrap64(m.core.pc + 2)))
  }

  lemma JumpRegDecoded(c: Core, w: bv32)
    requires HasRegs(c) && IsJumpReg(w) && Expansion(w).Some?
    ensures Decode32(c, Expand(w)) ==
            JumpAndLink(if IsLink(w) then 1 else 0, Wrap64(c.pc + 4), c.gpr[Reg(w, 7)])
  {
    hide Cat, OpcodeC, Index, R3, R5, RegC, Reg, Decode32, EncI, Expansion, DecodeC;
    CaseMove(c, w);
    Registers(w);
    IndexValues();
    JumpRegIs(c, if IsLink(w) then 1 else 0, R5(w, 7));
  }

  lemma JumpRegCompressed(c: Core, w: bv32)
    requires HasRegs(c) && IsJumpReg(w)
    ensures var target := c.gpr[Reg(w, 7)] - c.gpr[Reg(w, 7)] % 2;
            DecodeC(c, w) == if IsLink(w) then JumpAndLink(1, Wrap64(c.pc + 2), target) else JumpTo(target)
  {
    hide Cat, OpcodeC, Index, R3, R5, RegC, Reg, Expansion, DecodeC;
    CaseMove(c, w);
    Registers(w);
  }

  /** One step of the expansion, with the compressed instruction's own link. */
  function Expanded(m: Machine, w: bv32): Outcome
    requires WellFormed(m) && Expansion(w).Some?
  {
    var o := Execute(m, Expand(w));
    if IsLink(w) then Relinked(m, o) else o
  }

  lemma EvenJumpReg(m: Machine, w: bv32)
    requires Steady(m) && IsJumpReg(w) && Expansion(w).Some? && m.core.gpr[Reg(w, 7)] % 2 == 0
    ensures Perform(m, DecodeC(m.core, w)) ==
            var o := Perform(m, Decode32(m.core, Expand(w))); if IsLink(w) then Relinked(m, o) else o
  {
    hide IsJumpReg, Cat, OpcodeC, Reg, R5, Expansion, DecodeC, Decode32, Encode;
    JumpRegDecoded(m.core, w);
    JumpRegCompressed(m.core, w);
  }

  /** An odd target traps as a 32-bit jump and does not as a compressed one. */
  lemma OddJumpReg(m: Machine, w: bv32)
    requires Steady(m) && IsJumpReg(w) && Expansion(w).Some? && m.core.gpr[Reg(w, 7)] % 2 == 1
    requires !m.core.needTrap
    ensures Perform(m, Decode32(m.core, Expand(w))).m.core.needTrap
    ensures !Perform(m, DecodeC(m.core, w)).m.core.needTrap
  {
    hide IsJumpReg, IsLink, Cat, OpcodeC, Reg, R5, Expansion, DecodeC, Decode32, Encode;
    JumpRegDecoded(m.core, w);
    JumpRegCompressed(m.core, w);
  }

  /** Opcodes that no compressed instruction without floating point uses. */
  predicate Unused(op: bv32) {
    op == 0x01 || op == 0x04 || op == 0x05 || op == 0x11 || op == 0x15 || op >= 0x18
  }

  lemma UnusedHaveNone(w: bv32)
    requires Unused(OpcodeC(w))
    ensures Expansion(w).None?
  {
    hide OpcodeC, Cat, R3, R5, ExpandMove, ExpandQuadrant1;
  }

  lemma RefinesQuadrant0(m: Machine, w: bv32)
    requires Steady(m) && Expansion(w).Some? && OpcodeC(w) < 0x08
    ensures Perform(m, DecodeC(m.core, w)) == Perform(m, Decode32(m.core, Expand(w)))
  {
    hide Perform, DecodeC, Decode32, OpcodeC, Encode, Expansion;
    if OpcodeC(w) == 0x00 { RefinesAddi4spn(m, w); }
    else if OpcodeC(w) == 0x02 { RefinesLw(m.core, w); }
    else if OpcodeC(w) == 0x03 { RefinesLd(m.core, w); }
    else if OpcodeC(w) == 0x06 { RefinesSw(m.core, w); }
    else if OpcodeC(w) == 0x07 { RefinesSd(m.core, w); }
    else { UnusedHaveNone(w); }
  }

  lemma RefinesAlu(m: Machine, w: bv32)
    requires Steady(m) && Expansion(w).Some? && OpcodeC(w) == 0x0c
    ensures Perform(m, DecodeC(m.core, w)) == Perform(m, Decode32(m.core, Expand(w)))
  {
    hide Perform, DecodeC, Decode32, OpcodeC, Encode, Expansion, Cat;
    var bit12, funct2 := Cat(w, 12, 12, 0) != 0, Cat(w, 6, 5, 0);
    if Cat(w, 11, 11, 0) == 0 {
      if Cat(w, 10, 10, 0) == 0 { RefinesSrli(m, w); } else { RefinesSrai(m, w); }
    } else if Cat(w, 10, 10, 0) == 0 { RefinesAndi(m.core, w); }
    else if funct2 == 0 {
      if bit12 { RefinesSubw(m.core, w); } else { RefinesSub(m.core, w); }
    } else if funct2 == 1 {
      if bit12 { RefinesAddw(m.core, w); } else { RefinesXor(m.core, w); }
    } else {
      Funct2Reserved(w);
      if funct2 == 2 { RefinesOr(m.core, w); } else { RefinesAnd(m.core, w); }
    }
  }

  lemma Funct2Reserved(w: bv32)
    requires OpcodeC(w) == 0x0c && Cat(w, 11, 11, 0) != 0 && Cat(w, 10, 10, 0) != 0 && Expansion(w).Some?
    requires Cat(w, 6, 5, 0) != 0 && Cat(w, 6, 5, 0) != 1
    ensures Cat(w, 12, 12, 0) == 0 && (Cat(w, 6, 5, 0) == 2 || Cat(w, 6, 5, 0) == 3)
  {
    Funct2Range(w);
    Funct2None(w);
  }

  lemma Funct2Range(w: bv32)
    ensures Cat(w, 6, 5, 0) <= 3
  {
  }

  lemma Funct2None(w: bv32)
    requires OpcodeC(w) == 0x0c && Cat(w, 11, 11, 0) != 0 && Cat(w, 10, 10, 0) != 0 && Expansion(w).Some?
    requires Cat(w, 6, 5, 0) != 0 && Cat(w, 6, 5, 0) != 1
    ensures Cat(w, 12, 12, 0) == 0
  {
    hide OpcodeC, Cat;
  }

  lemma RefinesQuadrant1(m: Machine, w: bv32)
    requires Steady(m) && Expansion(w).Some? && 0x08 <= OpcodeC(w) < 0x10
    ensures Perform(m, DecodeC(m.core, w)) == Perform(m, Decode32(m.core, Expand(w)))
  {
    hide Perform, DecodeC, Decode32, OpcodeC, Encode, Expansion, R5;
    if OpcodeC(w) == 0x08 { RefinesAddi(m, w); }
    else if OpcodeC(w) == 0x09 { RefinesAddiw(m.core, w); }
    else if OpcodeC(w) == 0x0a { RefinesLi(m, w); }
    else if OpcodeC(w) == 0x0b {
      if R5(w, 7) == 2 { RefinesAddi16sp(m, w); } else { RefinesLui(m.core, w); }
    }
    else if OpcodeC(w) == 0x0c { RefinesAlu(m, w); }
    else if OpcodeC(w) == 0x0d { RefinesJump(m, w); }
    else if OpcodeC(w) == 0x0e { RefinesBeqz(m, w); }
    else { RefinesBnez(m, w); }
  }

  lemma RefinesQuadrant2(m: Machine, w: bv32)
    requires Steady(m) && Expansion(w).Some? && OpcodeC(w) >= 0x10 && !IsJumpReg(w)
    ensures Perform(m, DecodeC(m.core, w)) == Perform(m, Decode32(m.core, Expand(w)))
  {
    hide Perform, DecodeC, Decode32, OpcodeC, Encode, Expansion, R5, Cat;
    if OpcodeC(w) == 0x10 { RefinesSlli(m, w); }
    else if OpcodeC(w) == 0x12 { RefinesLwsp(m.core, w); }
    else if OpcodeC(w) == 0x13 { RefinesLdsp(m.core, w); }
    else if OpcodeC(w) == 0x14 {
      if R5(w, 2) == 0 { RefinesBreak(m.core, w); }
      else if Cat(w, 12, 12, 0) == 0 { RefinesMv(m, w); }
      else { RefinesAdd(m.core, w); }
    }
    else if OpcodeC(w) == 0x16 { RefinesSwsp(m.core, w); }
    else if OpcodeC(w) == 0x17 { RefinesSdsp(m.core, w); }
    else { UnusedHaveNone(w); }
  }

  lemma CompressedOpcode(w: bv32)
    ensures IsCompressed(w) <==> OpcodeC(w) < 0x18
  {
  }

  predicate IsWide(op: bv32) {
    op & 3 == 3
  }

  predicate WideOp(f: Format) {
    match f
    case IForm(op, _, _, _, _) => IsWide(op)
    case RForm(op, _, _, _, _, _) => IsWide(op)
    case _ => true
  }

  lemma WideOps()
    ensures IsWide(0x03) && IsWide(0x13) && IsWide(0x1b) && IsWide(0x33) && IsWide(0x3b) && IsWide(0x67) && IsWide(0x73)
  {
  }

  lemma EncodesWide(f: Format)
    requires WideOp(f)
    ensures !IsCompressed(Encode(f))
  {
  }

  lemma AluOp(w: bv32)
    ensures ExpandAlu(w).Some? ==> WideOp(ExpandAlu(w).value)
  {
    hide Cat, Widen, R3, Imm6;
  }

  lemma MoveOp(w: bv32)
    ensures ExpandMove(w).Some? ==> WideOp(ExpandMove(w).value)
    ensures ExpandUpper(w).Some? ==> WideOp(ExpandUpper(w).value)
  {
    hide Cat, Widen, R5, ImmLui, ImmAddi16sp;
  }

  lemma Quadrant0Op(w: bv32)
    ensures ExpandQuadrant0(w).Some? ==> WideOp(ExpandQuadrant0(w).value)
  {
    hide OpcodeC, Cat, R3, IsWide;
    WideOps();
  }

  lemma Quadrant1Op(w: bv32)
    ensures ExpandQuadrant1(w).Some? ==> WideOp(ExpandQuadrant1(w).value)
  {
    hide OpcodeC, Widen, R5, R3, IsWide, ExpandAlu, ExpandUpper;
    WideOps();
    AluOp(w);
    MoveOp(w);
  }

  lemma Quadrant2Op(w: bv32)
    ensures ExpandQuadrant2(w).Some? ==> WideOp(ExpandQuadrant2(w).value)
  {
    hide OpcodeC, Cat, R5, IsWide, ExpandMove;
    WideOps();
    MoveOp(w);
  }

  lemma ExpansionOp(w: bv32)
    requires Expansion(w).Some?
    ensures WideOp(Expansion(w).value)
  {
    hide ExpandQuadrant0, ExpandQuadrant1, ExpandQuadrant2, OpcodeC, IsWide;
    Quadrant0Op(w);
    Quadrant1Op(w);
    Quadrant2Op(w);
  }

  lemma ExpansionIsWide(w: bv32)
    requires Expansion(w).Some?
    ensures !IsCompressed(Expand(w))
  {
    hide Encode, IsCompressed, Expansion, WideOp;
    ExpansionOp(w);
    EncodesWide(Expansion(w).value);
  }

  /**
   * A compressed instruction and its expansion have the same effect in every state whose
   * register target, if the instruction jumps through a register, is even.
   */
  lemma CompressedRefines(m: Machine, w: bv32)
    requires Steady(m) && Expansion(w).Some?
    requires IsJumpReg(w) ==> m.core.gpr[Reg(w, 7)] % 2 == 0
    ensures Execute(m, w) == Expanded(m, w)
  {
    hide Perform, DecodeC, Decode32, OpcodeC, Encode, Expansion, R5, Cat, IsCompressed, Reg;
    CompressedOpcode(w);
    ExpansionIsWide(w);
    if OpcodeC(w) >= 0x18 { UnusedHaveNone(w); }
    if IsJumpReg(w) { EvenJumpReg(m, w); }
    else if OpcodeC(w) < 0x08 { RefinesQuadrant0(m, w); }
    else if OpcodeC(w) < 0x10 { RefinesQuadrant1(m, w); }
    else { RefinesQuadrant2(m, w); }
  }

  /** The condition is exact: with an odd target the 32-bit jump traps, the compressed one does not. */
  lemma RefinesExactly(m: Machine, w: bv32)
    requires Steady(m) && Expansion(w).Some? && !m.core.needTrap
    ensures Execute(m, w) == Expanded(m, w) <==> (IsJumpReg(w) ==> m.core.gpr[Reg(w, 7)] % 2 == 0)
  {
    hide Perform, DecodeC, Decode32, OpcodeC, Encode, Expansion, R5, Cat, IsCompressed, Reg;
    if IsJumpReg(w) && m.core.gpr[Reg(w, 7)] % 2 != 0 {
      CompressedOpcode(w);
      ExpansionIsWide(w);
      OddJumpReg(m, w);
    } else {
      CompressedRefines(m, w);
    }
  }

  /** A whole step: a compressed instruction that is fetched ends as its expansion, two bytes further on. */
  lemma CompressedStep(m: Machine, bytes: seq<byte>)
    requires Steady(m) && Fetched(m).1 == Sv39.Data(bytes)
    requires var w := FetchedWord(bytes);
             Expansion(w).Some? && (IsJumpReg(w) ==> m.core.gpr[Reg(w, 7)] % 2 == 0)
    ensures var w := FetchedWord(bytes);
            Instruction(m) == Commit(Expanded(Fetched(m).0, w), w, 2)
  {
    hide FetchedWord, Commit, Exec.Execute, Expansion, IsJumpReg, IsCompressed, OpcodeC, Expanded, Mem, Reg;
    var w := FetchedWord(bytes);
    ExpandsCompressed(w);
    CompressedRefines(Fetched(m).0, w);
  }

  lemma ExpandsCompressed(w: bv32)
    requires Expansion(w).Some?
    ensures IsCompressed(w)
  {
    hide OpcodeC, IsCompressed, Expansion;
    CompressedOpcode(w);
    if OpcodeC(w) >= 0x18 {
      UnusedHaveNone(w);
    }
  }
}
