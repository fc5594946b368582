/** The integer unit: 64-bit operations and their 32-bit forms. */
module Alu {
  import opened Words

  datatype Op =
    | Add | Sub | Sll | Slt | Sltu | XorOp | Srl | Sra | OrOp | AndOp
    | Mul | Mulh | Mulhu | Mulhsu | Div | Divu | Rem | Remu

  /** Division and remainder of the C++ operators: the quotient is truncated towards zero. */
  function TruncDiv(x: int, y: int): int
    requires y != 0
  {
    var q := Abs(x) / Abs(y);
    if (x < 0) == (y < 0) then q else -q
  }

  function TruncMod(x: int, y: int): int
    requires y != 0
  {
    var r := Abs(x) % Abs(y);
    if x < 0 then -r else r
  }

  function Abs(x: int): nat {
    if x < 0 then -x else x
  }

  function Low32(x: u64): nat {
    x % TWO_TO_THE_32
  }

  /** Result before it is cut to the register. */
  function Exact(x: int, y: int, op: Op, op32: bool): int
    requires -TWO_TO_THE_63 <= x < TWO_TO_THE_63 && -TWO_TO_THE_63 <= y < TWO_TO_THE_63
  {
    var ux, uy := Wrap64(x), Wrap64(y);
    var shift := if op32 then uy % 32 else uy % 64;
    match op
    case Add => x + y
    case Sub => x - y
    case Sll => ux * Exp2(shift)
    case Slt => if x < y then 1 else 0
    case Sltu => if ux < uy then 1 else 0
    case XorOp => Xor(ux, uy)
    case Srl => (if op32 then Low32(ux) else ux) / Exp2(shift)
    case Sra => x / Exp2(shift)
    case OrOp => Or(ux, uy)
    case AndOp => And(ux, uy)
    case Mul => x * y
    case Mulh => (x * y) / TWO_TO_THE_64
    case Mulhu => (ux * uy) / TWO_TO_THE_64
    case Mulhsu => ((x * uy) % (TWO_TO_THE_64 * TWO_TO_THE_64)) / TWO_TO_THE_64
    case Div => if y == 0 then -1 else if x == -TWO_TO_THE_63 && y == -1 then -TWO_TO_THE_63 else TruncDiv(x, y)
    case Divu => if y == 0 then TWO_TO_THE_64 - 1
                 else if op32 then (if Low32(uy) == 0 then 0 else Low32(ux) / Low32(uy))
                 else ux / uy
    case Rem => if y == 0 then x else if x == -TWO_TO_THE_63 && y == -1 then 0 else TruncMod(x, y)
    case Remu => if y == 0 then x
                 else if op32 then (if Low32(uy) == 0 then 0 else Low32(ux) % Low32(uy))
                 else ux % uy
  }

  function Exec(a: u64, b: u64, op: Op, op32: bool := false): u64 {
    if op32 then Wrap64(Signed32(Exact(Signed32(a), Signed32(b), op, true)))
    else Wrap64(Exact(Signed64(a), Signed64(b), op, false))
  }

  // ----- Products

  lemma SignedIsUnsigned(a: u64)
    ensures Wrap64(Signed64(a)) == a
    ensures Signed64(a) == a || Signed64(a) == a - TWO_TO_THE_64
  {
  }

  /** The low half of a product does not depend on how the operands are read. */
  lemma LowHalf(x: int, y: int, i: int, j: int)
    ensures Wrap64((x + i * TWO_TO_THE_64) * (y + j * TWO_TO_THE_64)) == Wrap64(x * y)
  {
    var k := x * j + i * y + i * j * TWO_TO_THE_64;
    assert (x + i * TWO_TO_THE_64) * (y + j * TWO_TO_THE_64) == x * y + k * TWO_TO_THE_64;
    WrapAdds(x * y, k);
  }

  lemma WrapAdds(x: int, k: int)
    ensures Wrap64(x + k * TWO_TO_THE_64) == Wrap64(x)
  {
    var q := x / TWO_TO_THE_64;
    DivModUnique(x + k * TWO_TO_THE_64, TWO_TO_THE_64, q + k, x % TWO_TO_THE_64);
  }

  lemma ProductBounds(x: int, y: int, m: nat, n: nat)
    requires Abs(x) <= m && Abs(y) <= n
    ensures Abs(x * y) <= m * n
  {
    MulMonotone(Abs(x), m, Abs(y));
    MulMonotone(Abs(y), n, m);
    assert Abs(x) * Abs(y) <= m * n;
    assert x * y == Abs(x) * Abs(y) || x * y == -(Abs(x) * Abs(y));
  }

  /** MULH with MUL is the exact signed product. */
  lemma SignedProduct(a: u64, b: u64)
    ensures Signed64(Exec(a, b, Mulh)) * TWO_TO_THE_64 + Exec(a, b, Mul) == Signed64(a) * Signed64(b)
  {
    var x, y := Signed64(a), Signed64(b);
    ProductBounds(x, y, TWO_TO_THE_63, TWO_TO_THE_63);
    HighFits(x * y);
  }

  /** The unsigned operations read their operands back unsigned. */
  lemma UnsignedForms(a: u64, b: u64)
    ensures Exec(a, b, Mulhu) == Wrap64((a * b) / TWO_TO_THE_64)
    ensures Exec(a, b, Divu) == if b == 0 then TWO_TO_THE_64 - 1 else Wrap64(a / b)
    ensures Exec(a, b, Remu) == if b == 0 then a else Wrap64(a % b)
  {
    SignedIsUnsigned(a);
    SignedIsUnsigned(b);
  }

  lemma HighFits(p: int)
    requires -TWO_TO_THE_63 * TWO_TO_THE_64 <= p < TWO_TO_THE_63 * TWO_TO_THE_64
    ensures Signed64(Wrap64(p / TWO_TO_THE_64)) == p / TWO_TO_THE_64
    ensures p == (p / TWO_TO_THE_64) * TWO_TO_THE_64 + Wrap64(p)
  {
  }

  /** MULHU with MUL is the exact unsigned product. */
  lemma UnsignedProduct(a: u64, b: u64)
    ensures Exec(a, b, Mulhu) * TWO_TO_THE_64 + Exec(a, b, Mul) == a * b
  {
    UnsignedForms(a, b);
    MulReadsEitherWay(a, b);
    UnsignedHigh(a, b);
  }

  lemma MulReadsEitherWay(a: u64, b: u64)
    ensures Exec(a, b, Mul) == Wrap64(a * b)
    ensures Exec(a, b, Mul) == Wrap64(Signed64(a) * b)
  {
    var x, y := Signed64(a), Signed64(b);
    SignedIsUnsigned(a);
    SignedIsUnsigned(b);
    LowHalf(x, y, if x == a then 0 else 1, if y == b then 0 else 1);
    LowHalf(x, y, 0, if y == b then 0 else 1);
  }

  lemma UnsignedHigh(a: u64, b: u64)
    ensures Wrap64((a * b) / TWO_TO_THE_64) * TWO_TO_THE_64 + Wrap64(a * b) == a * b
  {
    ProductBounds(a, b, TWO_TO_THE_64 - 1, TWO_TO_THE_64 - 1);
    assert a * b == Abs(a) * Abs(b);
    UnsignedFits(a * b);
  }

  lemma UnsignedFits(p: nat)
    requires p < TWO_TO_THE_64 * TWO_TO_THE_64
    ensures Wrap64(p / TWO_TO_THE_64) * TWO_TO_THE_64 + Wrap64(p) == p
  {
  }

  /** MULHSU with MUL is the exact product of a signed and an unsigned operand. */
  lemma MixedProduct(a: u64, b: u64)
    ensures Signed64(Exec(a, b, Mulhsu)) * TWO_TO_THE_64 + Exec(a, b, Mul) == Signed64(a) * b
  {
    MulReadsEitherWay(a, b);
    SignedIsUnsigned(b);
    ProductBounds(Signed64(a), b, TWO_TO_THE_63, TWO_TO_THE_64 - 1);
    MixedHigh(Signed64(a) * b);
  }

  lemma MixedHigh(p: int)
    requires -TWO_TO_THE_63 * TWO_TO_THE_64 <= p < TWO_TO_THE_63 * TWO_TO_THE_64
    ensures var h := (p % (TWO_TO_THE_64 * TWO_TO_THE_64)) / TWO_TO_THE_64;
            Signed64(Wrap64(h)) * TWO_TO_THE_64 + Wrap64(p) == p
  {
    HighFits(p);
  }

  // ----- Quotients

  lemma NatDivision(x: nat, y: nat)
    requires y > 0
    ensures x == (x / y) * y + x % y && 0 <= x % y < y && 0 <= x / y <= x
  {
    var q, r := x / y, x % y;
    assert x == q * y + r && 0 <= r < y;
    DivBounds(x, y, 0);
    MulMonotone(1, y, q);
  }

  lemma NegatedProduct(q: int, y: int)
    ensures q * (-y) == -(q * y) && (-q) * y == -(q * y)
  {
  }

  lemma TruncDivision(x: int, y: int)
    requires y != 0
    ensures x == TruncDiv(x, y) * y + TruncMod(x, y)
    ensures Abs(TruncMod(x, y)) < Abs(y)
    ensures TruncMod(x, y) == 0 || (TruncMod(x, y) < 0) == (x < 0)
    ensures Abs(TruncDiv(x, y)) <= Abs(x)
  {
    NatDivision(Abs(x), Abs(y));
    NegatedProduct(Abs(x) / Abs(y), y);
  }

  /** DIV and REM: the division identity, and the two cases without a quotient. */
  lemma SignedDivision(a: u64, b: u64)
    ensures var x, y := Signed64(a), Signed64(b);
            var q, r := Signed64(Exec(a, b, Div)), Signed64(Exec(a, b, Rem));
            if y == 0 then q == -1 && r == x
            else if x == -TWO_TO_THE_63 && y == -1 then q == x && r == 0
            else x == q * y + r && Abs(r) < Abs(y) && (r == 0 || (r < 0) == (x < 0))
  {
    var x, y := Signed64(a), Signed64(b);
    if y != 0 && !(x == -TWO_TO_THE_63 && y == -1) {
      TruncDivision(x, y);
      QuotientFits(x, y);
      SignedForms(a, b);
    }
  }

  lemma SignedForms(a: u64, b: u64)
    requires Signed64(b) != 0 && !(Signed64(a) == -TWO_TO_THE_63 && Signed64(b) == -1)
    ensures Signed64(Exec(a, b, Div)) == TruncDiv(Signed64(a), Signed64(b))
    ensures Signed64(Exec(a, b, Rem)) == TruncMod(Signed64(a), Signed64(b))
  {
    var x, y := Signed64(a), Signed64(b);
    TruncDivision(x, y);
    QuotientFits(x, y);
    SignedWrap(TruncDiv(x, y));
    SignedWrap(TruncMod(x, y));
  }

  lemma SignedWrap(x: int)
    requires -TWO_TO_THE_63 <= x < TWO_TO_THE_63
    ensures Signed64(Wrap64(x)) == x
  {
  }

  /** Only the most negative number divided by -1 overflows. */
  lemma QuotientFits(x: int, y: int)
    requires -TWO_TO_THE_63 <= x < TWO_TO_THE_63 && y != 0
    requires !(x == -TWO_TO_THE_63 && y == -1)
    ensures -TWO_TO_THE_63 <= TruncDiv(x, y) < TWO_TO_THE_63
  {
    TruncDivision(x, y);
    if x == -TWO_TO_THE_63 && y < -1 {
      assert Abs(x) / Abs(y) <= Abs(x) / 2 by {
        DivBounds(Abs(x), 2, Abs(x) / Abs(y));
        MulMonotone(2, Abs(y), Abs(x) / Abs(y));
      }
    }
  }

  /** DIVU and REMU. */
  lemma UnsignedDivision(a: u64, b: u64)
    ensures var q, r := Exec(a, b, Divu), Exec(a, b, Remu);
            if b == 0 then q == TWO_TO_THE_64 - 1 && r == a
            else a == q * b + r && r < b
  {
    UnsignedForms(a, b);
    if b != 0 {
      UnsignedQuotient(a, b);
    }
  }

  lemma UnsignedQuotient(a: u64, b: u64)
    requires b != 0
    ensures a == Wrap64(a / b) * b + Wrap64(a % b) && Wrap64(a % b) < b
  {
    var q, r := a / b, a % b;
    assert a == q * b + r && 0 <= r < b;
    MulMonotone(1, b, q);
    assert 0 <= q <= a;
  }

  // ----- 32-bit forms

  /** The 32-bit operations, on 32-bit words, as section 7.2 of the Unprivileged ISA gives them. */
  function Word32(a: int, b: int, op: Op): int
    requires 0 <= a < TWO_TO_THE_32 && 0 <= b < TWO_TO_THE_32
    requires op in {Add, Sub, Sll, Srl, Sra, Mul, Div, Divu, Rem, Remu}
  {
    var x, y := Signed32(a), Signed32(b);
    match op
    case Add => a + b
    case Sub => a - b
    case Sll => a * Exp2(b % 32)
    case Srl => a / Exp2(b % 32)
    case Sra => x / Exp2(b % 32)
    case Mul => a * b
    case Div => if b == 0 then -1 else TruncDiv(x, y)
    case Rem => if b == 0 then x else TruncMod(x, y)
    case Divu => if b == 0 then TWO_TO_THE_32 - 1 else a / b
    case Remu => if b == 0 then a else a % b
  }

  lemma Signed32Adds(x: int, k: int)
    ensures Signed32(x + k * TWO_TO_THE_32) == Signed32(x)
  {
    var q := x / TWO_TO_THE_32;
    DivModUnique(x + k * TWO_TO_THE_32, TWO_TO_THE_32, q + k, x % TWO_TO_THE_32);
  }

  /** A sign-extended word keeps its low half, and with it the shift amount. */
  lemma WordOperand(a: u64)
    ensures Low32(Wrap64(Signed32(a))) == Low32(a)
    ensures Wrap64(Signed32(a)) % 32 == Low32(a) % 32
    ensures Signed32(a) == 0 <==> Low32(a) == 0
    ensures Signed32(Low32(a)) == Signed32(a)
  {
  }

  /** How far the sign-extended word is from the word itself, in units of 2^32. */
  function Excess(a: u64): int {
    if Signed32(a) < 0 then -1 else 0
  }

  lemma WordShift(a: u64, b: u64)
    ensures Exec(a, b, Sll, true) == Wrap64(Signed32(Low32(a) * Exp2(Low32(b) % 32)))
  {
    WordOperand(b);
    var p := Exp2(Low32(b) % 32);
    var k := if Signed32(a) < 0 then TWO_TO_THE_32 - 1 else 0;
    assert Wrap64(Signed32(a)) == Low32(a) + k * TWO_TO_THE_32;
    ShiftExcess(Low32(a), k, p);
  }

  lemma ShiftExcess(x: int, k: int, p: int)
    ensures Signed32((x + k * TWO_TO_THE_32) * p) == Signed32(x * p)
  {
    assert (x + k * TWO_TO_THE_32) * p == x * p + (k * p) * TWO_TO_THE_32;
    Signed32Adds(x * p, k * p);
  }

  lemma WordProduct(x: int, y: int, i: int, j: int)
    ensures Signed32((x + i * TWO_TO_THE_32) * (y + j * TWO_TO_THE_32)) == Signed32(x * y)
  {
    var k := x * j + i * y + i * j * TWO_TO_THE_32;
    assert (x + i * TWO_TO_THE_32) * (y + j * TWO_TO_THE_32) == x * y + k * TWO_TO_THE_32;
    Signed32Adds(x * y, k);
  }

  /** ADDW, SUBW, SLLW, SRLW, SRAW and MULW sign-extend the operation on the low words. */
  lemma WordForms(a: u64, b: u64, op: Op)
    requires op in {Add, Sub, Sll, Srl, Sra, Mul}
    ensures Exec(a, b, op, true) == Wrap64(Signed32(Word32(Low32(a), Low32(b), op)))
  {
    WordOperand(a);
    WordOperand(b);
    match op
    case Add => Signed32Adds(Low32(a) + Low32(b), Excess(a) + Excess(b));
    case Sub => Signed32Adds(Low32(a) - Low32(b), Excess(a) - Excess(b));
    case Sll => WordShift(a, b);
    case Mul => WordProduct(Low32(a), Low32(b), Excess(a), Excess(b));
    case _ =>
  }

  /** DIVW, DIVUW, REMW and REMUW sign-extend the division of the low words. */
  lemma WordDivisions(a: u64, b: u64, op: Op)
    requires op in {Div, Divu, Rem, Remu}
    ensures Exec(a, b, op, true) == Wrap64(Signed32(Word32(Low32(a), Low32(b), op)))
  {
    WordOperand(a);
    WordOperand(b);
    if op == Remu {
      Signed32Adds(Low32(a), Excess(a));
    }
  }
}
