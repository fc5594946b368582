/** Machine words and byte strings shared by every component. */
module Words {
  const TWO_TO_THE_31: int := 0x8000_0000
  const TWO_TO_THE_32: int := 0x1_0000_0000
  const TWO_TO_THE_63: int := 0x8000_0000_0000_0000
  const TWO_TO_THE_64: int := 0x1_0000_0000_0000_0000

  type u64 = x: int | 0 <= x < TWO_TO_THE_64
  type byte = x: int | 0 <= x < 256

  datatype Option<+T> = None | Some(value: T)

  /** The value kept when a wider result is stored in a 64-bit register. */
  function Wrap64(x: int): u64 {
    x % TWO_TO_THE_64
  }

  /** A 64-bit register read as a two's complement number. */
  function Signed64(x: u64): int {
    if x < TWO_TO_THE_63 then x else x - TWO_TO_THE_64
  }

  /** The low word of a register, sign-extended: the C++ cast to int32_t. */
  function Signed32(x: int): int {
    var low := x % TWO_TO_THE_32;
    if low < TWO_TO_THE_31 then low else low - TWO_TO_THE_32
  }

  // ----- Bit vectors and numbers

  function Exp2(k: nat): (p: nat)
    ensures p > 0
  {
    if k == 0 then 1 else 2 * Exp2(k - 1)
  }

  lemma {:induction false} Exp2Adds(j: nat, k: nat)
    ensures Exp2(j + k) == Exp2(j) * Exp2(k)
  {
    if j > 0 {
      Exp2Adds(j - 1, k);
    }
  }

  lemma Exp2Values()
    ensures Exp2(32) == TWO_TO_THE_32 && Exp2(64) == TWO_TO_THE_64
  {
    Exp2Word();
    Exp2Adds(32, 32);
  }

  lemma Exp2Word()
    ensures Exp2(32) == TWO_TO_THE_32
  {
    assert Exp2(4) == 16;
    Exp2Adds(4, 4);
    Exp2Adds(8, 8);
    Exp2Adds(16, 16);
  }

  /** Value of the low k bits. */
  function Digits(x: bv64, k: nat): (r: nat)
    ensures r < Exp2(k)
  {
    if k == 0 then 0 else (if x & 1 == 1 then 1 else 0) + 2 * Digits(x >> 1, k - 1)
  }

  /** A vector with one more digit at its low end. */
  function Push(v: bv64, odd: bool): bv64 {
    if odd then (v << 1) | 1 else v << 1
  }

  /** The vector of the low k binary digits. */
  function Vector(x: nat, k: nat): bv64 {
    if k == 0 then 0 else Push(Vector(x / 2, k - 1), x % 2 == 1)
  }

  /** A bit vector as a register value, and back. */
  function Word(x: bv64): u64 {
    Exp2Values();
    Digits(x, 64)
  }

  function Bits(x: u64): bv64 {
    Vector(x, 64)
  }

  function Both(x: bv64, y: bv64): bv64 {
    x & y
  }

  function Either(x: bv64, y: bv64): bv64 {
    x | y
  }

  function Complement(x: bv64): bv64 {
    !x
  }

  function And(a: u64, b: u64): u64 {
    Word(Both(Bits(a), Bits(b)))
  }

  function Or(a: u64, b: u64): u64 {
    Word(Either(Bits(a), Bits(b)))
  }

  function Xor(a: u64, b: u64): u64 {
    Word(Bits(a) ^ Bits(b))
  }

  function Not(a: u64): u64 {
    Word(Complement(Bits(a)))
  }

  /** A vector of k ones. */
  function Ones(k: nat): bv64 {
    if k == 0 then 0 else Push(Ones(k - 1), true)
  }

  lemma {:induction false} OnesGrow(k: nat)
    ensures Ones(k) & !Ones(k + 1) == 0
  {
    if k > 0 {
      OnesGrow(k - 1);
    }
  }

  lemma TwoMoreOnes(k: nat, v: bv64)
    requires Ones(k) == v
    ensures Ones(k + 2) == (v << 2) | 3
  {
    assert Ones(k + 2) == (((v << 1) | 1) << 1) | 1;
    ShiftTwice(v);
  }

  lemma ShiftTwice(v: bv64)
    ensures (((v << 1) | 1) << 1) | 1 == (v << 2) | 3
  {
  }

  lemma FourMoreOnes(k: nat, v: bv64)
    requires Ones(k) == v
    ensures Ones(k + 4) == (v << 4) | 15
  {
    TwoMoreOnes(k, v);
    TwoMoreOnes(k + 2, (v << 2) | 3);
  }

  lemma NextOnes(k: nat, v: bv64)
    requires Ones(k) == v
    ensures Ones(k + 8) == (v << 8) | 0xff
  {
    FourMoreOnes(k, v);
    FourMoreOnes(k + 4, (v << 4) | 15);
  }

  lemma {:induction false} TopClear(k: nat)
    requires k <= 63
    ensures Ones(k) & 0x8000_0000_0000_0000 == 0
    decreases 63 - k
  {
    if k == 63 {
      NextOnes(0, 0);
      NextOnes(8, 0xff);
      NextOnes(16, 0xffff);
      NextOnes(24, 0xff_ffff);
      NextOnes(32, 0xffff_ffff);
      NextOnes(40, 0xff_ffff_ffff);
      NextOnes(48, 0xffff_ffff_ffff);
      FourMoreOnes(56, 0xff_ffff_ffff_ffff);
      TwoMoreOnes(60, 0xfff_ffff_ffff_ffff);
    } else {
      TopClear(k + 1);
      OnesGrow(k);
    }
  }

  /** Every bit set in the vector is set in the mask. */
  predicate Inside(v: bv64, mask: bv64) {
    v & !mask == 0
  }

  lemma {:induction false} VectorFits(x: nat, k: nat, v: bv64, mask: bv64)
    requires v == Vector(x, k) && mask == Ones(k)
    ensures Inside(v, mask)
  {
    hide Push, Inside;
    if k == 0 {
      EmptyInside(mask);
    } else {
      var v1, mask1 := Vector(x / 2, k - 1), Ones(k - 1);
      assert v == Push(v1, x % 2 == 1) && mask == Push(mask1, true);
      VectorFits(x / 2, k - 1, v1, mask1);
      PushFits(v1, x % 2 == 1, mask1, v, mask);
    }
  }

  lemma EmptyInside(mask: bv64)
    ensures Inside(0, mask)
  {
  }

  lemma PushFits(v1: bv64, odd: bool, mask1: bv64, v: bv64, mask: bv64)
    requires Inside(v1, mask1) && v == Push(v1, odd) && mask == Push(mask1, true)
    ensures Inside(v, mask)
  {
    PushedBits(v1, odd, mask1);
  }

  lemma PushedBits(v: bv64, odd: bool, mask: bv64)
    requires v & !mask == 0
    ensures Push(v, odd) & !((mask << 1) | 1) == 0
  {
  }

  lemma {:induction false} DigitsOfVector(x: nat, k: nat)
    requires k <= 64 && x < Exp2(k)
    ensures Digits(Vector(x, k), k) == x
  {
    if k > 0 {
      TopBitClear(x / 2, k - 1);
      DigitsPush(Vector(x / 2, k - 1), x % 2 == 1, k);
      DigitsOfVector(x / 2, k - 1);
    }
  }

  lemma DigitsPush(v: bv64, odd: bool, k: nat)
    requires v & 0x8000_0000_0000_0000 == 0 && k > 0
    ensures Digits(Push(v, odd), k) == (if odd then 1 else 0) + 2 * Digits(v, k - 1)
  {
    PushBack(v, odd);
  }

  lemma PushBack(v: bv64, odd: bool)
    requires v & 0x8000_0000_0000_0000 == 0
    ensures Push(v, odd) >> 1 == v && (Push(v, odd) & 1 == 1 <==> odd)
  {
  }

  lemma TopBitClear(x: nat, k: nat)
    requires k <= 63
    ensures Vector(x, k) & 0x8000_0000_0000_0000 == 0
  {
    VectorFits(x, k, Vector(x, k), Ones(k));
    TopClear(k);
    MaskedClear(Vector(x, k), Ones(k));
  }

  lemma MaskedClear(v: bv64, ones: bv64)
    requires Inside(v, ones) && ones & 0x8000_0000_0000_0000 == 0
    ensures v & 0x8000_0000_0000_0000 == 0
  {
  }

  /** Reading a register as bits and back gives the register. */
  lemma WordOfBits(x: u64)
    ensures Word(Bits(x)) == x
  {
    Exp2Values();
    DigitsOfVector(x, 64);
  }

  predicate Odd(x: bv64) {
    x & 1 == 1
  }

  function Half(x: bv64): bv64 {
    x >> 1
  }

  lemma DigitsSplit(x: bv64, k: nat)
    requires k > 0
    ensures Digits(x, k) == (if Odd(x) then 1 else 0) + 2 * Digits(Half(x), k - 1)
  {
  }

  /** The vector holds the bits of x that the mask selects. */
  predicate Selected(v: bv64, x: bv64, mask: bv64) {
    v == x & mask
  }

  lemma PushSelected(v: bv64, x: bv64, mask: bv64)
    requires Selected(v, Half(x), mask)
    ensures Selected(Push(v, Odd(x)), x, Push(mask, true))
  {
    if Odd(x) {
      PushOdd(x, mask);
    } else {
      PushEven(x, mask);
    }
  }

  lemma PushOdd(x: bv64, mask: bv64)
    requires x & 1 == 1
    ensures (((x >> 1) & mask) << 1) | 1 == x & ((mask << 1) | 1)
  {
  }

  lemma PushEven(x: bv64, mask: bv64)
    requires x & 1 != 1
    ensures ((x >> 1) & mask) << 1 == x & ((mask << 1) | 1)
  {
  }

  lemma NothingSelected(x: bv64)
    ensures Selected(0, x, 0)
  {
  }

  lemma {:induction false} VectorOfDigits(x: bv64, k: nat)
    ensures Selected(Vector(Digits(x, k), k), x, Ones(k))
    decreases k
  {
    hide Push, Selected, Odd, Half, Digits;
    if k > 0 {
      DigitsSplit(x, k);
      VectorOfDigits(Half(x), k - 1);
      PushSelected(Vector(Digits(Half(x), k - 1), k - 1), x, Ones(k - 1));
    } else {
      NothingSelected(x);
    }
  }

  lemma AllOnes()
    ensures Ones(64) == 0xffff_ffff_ffff_ffff
  {
    NextOnes(0, 0);
    NextOnes(8, 0xff);
    NextOnes(16, 0xffff);
    NextOnes(24, 0xff_ffff);
    NextOnes(32, 0xffff_ffff);
    NextOnes(40, 0xff_ffff_ffff);
    NextOnes(48, 0xffff_ffff_ffff);
    NextOnes(56, 0xff_ffff_ffff_ffff);
  }

  lemma AllSelected(v: bv64, x: bv64, ones: bv64)
    requires Selected(v, x, ones) && ones == 0xffff_ffff_ffff_ffff
    ensures v == x
  {
  }

  /** And the other way: the bits of a register value made of bits are those bits. */
  lemma BitsOfWord(x: bv64)
    ensures Bits(Word(x)) == x
  {
    hide Ones, Vector, Selected;
    Exp2Values();
    VectorOfDigits(x, 64);
    AllOnes();
    AllSelected(Bits(Word(x)), x, Ones(64));
  }

  lemma DigitsParity(x: bv64, k: nat)
    requires k > 0
    ensures Digits(x, k) % 2 == 0 <==> x & 1 == 0
  {
    BitIsZeroOrOne(x);
  }

  lemma BitIsZeroOrOne(x: bv64)
    ensures x & 1 == 0 || x & 1 == 1
  {
  }

  lemma WordParity(x: bv64)
    ensures Word(x) % 2 == 0 <==> x & 1 == 0
  {
    DigitsParity(x, 64);
  }

  lemma {:induction false} DigitsOfZero(k: nat)
    ensures Digits(0, k) == 0
  {
    if k > 0 {
      DigitsOfZero(k - 1);
    }
  }

  /** Number denoted by a little-endian byte string. */
  function FromBytes(bytes: seq<byte>): nat {
    if bytes == [] then 0 else bytes[0] + 256 * FromBytes(bytes[1..])
  }

  /** The low `len` bytes of a number, least significant first. */
  function ToBytes(x: nat, len: nat): (bytes: seq<byte>)
    ensures |bytes| == len
  {
    if len == 0 then [] else [x % 256] + ToBytes(x / 256, len - 1)
  }

  function Power256(len: nat): (p: nat)
    ensures p > 0
  {
    if len == 0 then 1 else 256 * Power256(len - 1)
  }

  lemma {:induction false} FromToBytes(x: nat, len: nat)
    ensures FromBytes(ToBytes(x, len)) == x % Power256(len)
  {
    if len != 0 {
      FromToBytes(x / 256, len - 1);
      var p := Power256(len - 1);
      assert ToBytes(x, len)[1..] == ToBytes(x / 256, len - 1);
      ModSplit(x, p);
    }
  }

  lemma Power256Word()
    ensures Power256(8) == TWO_TO_THE_64
  {
    assert Power256(4) == 0x1_0000_0000;
  }

  /** A register survives being stored as eight bytes. */
  lemma EightBytes(x: u64)
    ensures FromBytes(ToBytes(x, 8)) == x
  {
    FromToBytes(x, 8);
    Power256Word();
  }

  lemma ModSplit(x: nat, p: nat)
    requires p > 0
    ensures x % (256 * p) == x % 256 + 256 * ((x / 256) % p)
  {
    var q := (x / 256) / p;
    var r := (x / 256) % p;
    assert x / 256 == q * p + r;
    var low := x % 256 + 256 * r;
    assert x == q * (256 * p) + low by {
      assert 256 * (q * p) == q * (256 * p);
    }
    assert 0 <= low < 256 * p by {
      assert r + 1 <= p;
    }
    DivModUnique(x, 256 * p, q, low);
  }

  lemma DivModUnique(x: int, d: int, q: int, r: int)
    requires d > 0 && x == q * d + r && 0 <= r < d
    ensures x / d == q && x % d == r
  {
    MulAtLeast(x / d - q, d);
    assert (x / d - q) * d == r - x % d;
  }

  lemma MulAtLeast(e: int, d: int)
    requires d > 0
    ensures e >= 1 ==> e * d >= d
    ensures e <= -1 ==> e * d <= -d
  {
  }

  lemma MulMonotone(a: int, b: int, d: int)
    requires d >= 0
    ensures a <= b ==> a * d <= b * d
  {
  }

  lemma DivBounds(x: int, d: int, m: int)
    requires d > 0
    ensures x >= m * d <==> x / d >= m
  {
    MulMonotone(x / d + 1, m, d);
    MulMonotone(m, x / d, d);
  }
}
