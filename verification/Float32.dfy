/**
  Numbers as both float formats hold them: an integer times a power of two. A float64
  is such a number; a float32 pattern denotes one unless it is an infinity or a NaN.
*/
module Float32 {
  import opened Bits
  import opened Wrappers

  /** m times 2 to the power e. */
  datatype Dyadic = Dyadic(m: int, e: int)

  predicate IsPattern(bits: nat) {
    bits < 0x1_0000_0000
  }

  function ExponentOf(bits: nat): nat {
    bits / 0x80_0000 % 0x100
  }

  function FractionOf(bits: nat): nat {
    bits % 0x80_0000
  }

  predicate Finite(bits: nat) {
    IsPattern(bits) && ExponentOf(bits) != 0xFF
  }

  predicate IsNaN(bits: nat) {
    ExponentOf(bits) == 0xFF && FractionOf(bits) != 0
  }

  function SignOf(bits: nat): int {
    if bits >= 0x8000_0000 then -1 else 1
  }

  /** The number a finite float32 pattern denotes. */
  function NumberOf(bits: nat): Dyadic
    requires Finite(bits)
  {
    if ExponentOf(bits) == 0 then Dyadic(SignOf(bits) * FractionOf(bits), -149)
    else Dyadic(SignOf(bits) * (FractionOf(bits) + 0x80_0000), ExponentOf(bits) - 150)
  }

  function Min(a: int, b: int): int {
    if a < b then a else b
  }

  /** `m` doubled `j` times. */
  function Shift(m: int, j: nat): int {
    if j == 0 then m else 2 * Shift(m, j - 1)
  }

  /** A number in units of 2 to the power `low`. */
  function Scaled(d: Dyadic, low: int): int
    requires low <= d.e
  {
    Shift(d.m, d.e - low)
  }

  /** Equality of numbers. */
  predicate Same(a: Dyadic, b: Dyadic) {
    Scaled(a, Min(a.e, b.e)) == Scaled(b, Min(a.e, b.e))
  }

  /** Go's == on two float64 values widened from these float32 patterns. */
  predicate FloatsEqual(a: nat, b: nat) {
    !IsNaN(a) && !IsNaN(b) && (a == b || (Finite(a) && Finite(b) && Same(NumberOf(a), NumberOf(b))))
  }

  // -------------------------------------------------------------- normal form

  /** The same number with an odd m, or 0. */
  function Odd(d: Dyadic): (r: Dyadic)
    ensures d.m == 0 ==> r == Dyadic(0, 0)
    ensures d.m != 0 ==> r.m % 2 == 1 && r.e >= d.e
    decreases if d.m >= 0 then d.m else -d.m
  {
    if d.m == 0 then Dyadic(0, 0)
    else if d.m % 2 == 1 then d
    else Odd(Dyadic(d.m / 2, d.e + 1))
  }

  lemma {:induction false} ShiftTwice(m: int, a: nat, b: nat)
    ensures Shift(Shift(m, a), b) == Shift(m, a + b)
  {
    if b > 0 {
      ShiftTwice(m, a, b - 1);
    }
  }

  lemma {:induction false} ShiftSign(m: int, j: nat)
    ensures Shift(-m, j) == -Shift(m, j)
    ensures (m > 0 <==> Shift(m, j) > 0) && (m == 0 <==> Shift(m, j) == 0)
  {
    if j > 0 {
      ShiftSign(m, j - 1);
    }
  }

  lemma {:induction false} ShiftInside(m: int, j: nat)
    ensures Shift(2 * m, j) == 2 * Shift(m, j)
  {
    if j > 0 {
      ShiftInside(m, j - 1);
    }
  }

  lemma {:induction false} OddIsTheSame(d: Dyadic)
    requires d.m != 0
    ensures Odd(d).m != 0 && d.m == Shift(Odd(d).m, Odd(d).e - d.e)
    decreases if d.m >= 0 then d.m else -d.m
  {
    if d.m % 2 == 0 {
      OddIsTheSame(Dyadic(d.m / 2, d.e + 1));
    }
  }

  /** Scaling up and lowering the exponent keeps the normal form. */
  lemma {:induction false} OddOfShifted(m: int, e: int, j: nat)
    ensures Odd(Dyadic(Shift(m, j), e)) == Odd(Dyadic(m, e + j))
    decreases j
  {
    if j > 0 {
      OddOfShifted(m, e + 1, j - 1);
    }
  }

  lemma ScaledOdd(d: Dyadic, low: int)
    requires low <= d.e
    ensures d.m == 0 <==> Odd(d).m == 0
    ensures d.m == 0 ==> Scaled(d, low) == 0
    ensures d.m != 0 ==> Odd(d).e >= d.e && Scaled(d, low) == Shift(Odd(d).m, Odd(d).e - low)
  {
    ShiftSign(d.m, d.e - low);
    if d.m != 0 {
      OddIsTheSame(d);
      ShiftTwice(Odd(d).m, Odd(d).e - d.e, d.e - low);
    }
  }

  lemma SameMeansOddsAgree(a: Dyadic, b: Dyadic)
    requires Same(a, b)
    ensures Odd(a) == Odd(b)
  {
    var low := Min(a.e, b.e);
    assert Dyadic(Scaled(a, low), low) == Dyadic(Scaled(b, low), low);
    OddOfShifted(a.m, low, a.e - low);
    OddOfShifted(b.m, low, b.e - low);
  }

  /** Two numbers are equal exactly when their normal forms are. */
  lemma SameExactlyWhenOddsAgree(a: Dyadic, b: Dyadic)
    ensures Same(a, b) <==> Odd(a) == Odd(b)
  {
    ScaledOdd(a, Min(a.e, b.e));
    ScaledOdd(b, Min(a.e, b.e));
    if Same(a, b) {
      SameMeansOddsAgree(a, b);
    }
  }

  // -------------------------------------------------------------- bit lengths

  function BitLength(a: nat): nat {
    if a == 0 then 0 else 1 + BitLength(a / 2)
  }

  lemma {:induction false} BitLengthBounds(a: nat, k: nat)
    ensures a < Pow2(k) <==> BitLength(a) <= k
    decreases k
  {
    if k > 0 && a > 0 {
      BitLengthBounds(a / 2, k - 1);
    }
  }

  lemma {:induction false} BitLengthShifts(a: nat, j: nat)
    requires a > 0
    ensures Shift(a, j) > 0 && BitLength(Shift(a, j)) == BitLength(a) + j
  {
    if j > 0 {
      BitLengthShifts(a, j - 1);
    }
  }

  function Abs(m: int): nat {
    if m >= 0 then m else -m
  }

  // -------------------------------------------------------------- what a float32 can hold

  /** The number needs at most 24 bits, none below 2^-149 and none from 2^128 up. */
  predicate FitsFloat32(d: Dyadic) {
    var n := Odd(d);
    n.m == 0 || (BitLength(Abs(n.m)) <= 24 && n.e >= -149 && n.e + BitLength(Abs(n.m)) <= 128)
  }

  lemma OddKeepsTop(d: Dyadic)
    requires d.m != 0
    ensures var n := Odd(d); n.m != 0 && BitLength(Abs(n.m)) + n.e == BitLength(Abs(d.m)) + d.e
  {
    var n := Odd(d);
    OddIsTheSame(d);
    ShiftSign(n.m, n.e - d.e);
    BitLengthShifts(Abs(n.m), n.e - d.e);
  }

  lemma FloatsFit(bits: nat)
    requires Finite(bits)
    ensures FitsFloat32(NumberOf(bits))
  {
    var d := NumberOf(bits);
    if d.m != 0 {
      OddKeepsTop(d);
      Pow24();
      BitLengthBounds(Abs(d.m), 24);
    }
  }

  lemma Pow24()
    ensures Pow2(24) == 0x100_0000 && Pow2(23) == 0x80_0000
  {
    assert Pow2(24) == 16 * Pow2(20) && Pow2(20) == 16 * Pow2(16) && Pow2(16) == 16 * Pow2(12) && Pow2(12) == 4096;
    assert Pow2(24) == 2 * Pow2(23);
  }

  /** Sign, exponent field and fraction as one pattern. */
  function Pattern(negative: bool, exponent: nat, fraction: nat): nat {
    (if negative then 0x8000_0000 else 0) + exponent * 0x80_0000 + fraction
  }

  lemma PatternFields(negative: bool, exponent: nat, fraction: nat)
    requires exponent <= 0xFE && fraction < 0x80_0000
    ensures var p := Pattern(negative, exponent, fraction);
            Finite(p) && ExponentOf(p) == exponent && FractionOf(p) == fraction && SignOf(p) == (if negative then -1 else 1)
  {
  }

  /** The exponent of the last bit of the float32 of a number with `length` bits from exponent `e` up. */
  function UnitOf(e: int, length: nat): int {
    if e + length - 24 >= -149 then e + length - 24 else -149
  }

  /** The pattern of an integer below 2^24 times a power of two. */
  function Assembled(negative: bool, a: nat, unit: int): nat
    requires a < 0x100_0000 && -149 <= unit <= 104
  {
    if a >= 0x80_0000 then Pattern(negative, unit + 150, a - 0x80_0000) else Pattern(negative, 0, a)
  }

  function Signed(negative: bool, a: int): int {
    if negative then -a else a
  }

  lemma AssembledDenotes(negative: bool, a: nat, unit: int)
    requires a < 0x100_0000 && -149 <= unit <= 104 && (a >= 0x80_0000 || unit == -149)
    ensures var p := Assembled(negative, a, unit); Finite(p) && NumberOf(p) == Dyadic(Signed(negative, a), unit)
  {
    if a >= 0x80_0000 {
      PatternFields(negative, unit + 150, a - 0x80_0000);
    } else {
      PatternFields(negative, 0, a);
    }
  }

  lemma UnitFits(m: nat, e: int)
    requires m > 0 && BitLength(m) <= 24 && e >= -149 && e + BitLength(m) <= 128
    ensures var unit := UnitOf(e, BitLength(m));
            && -149 <= unit <= 104 && unit <= e
            && 0 < Shift(m, e - unit) < 0x100_0000 && (Shift(m, e - unit) >= 0x80_0000 || unit == -149)
  {
    var unit := UnitOf(e, BitLength(m));
    BitLengthShifts(m, e - unit);
    Pow24();
    BitLengthBounds(Shift(m, e - unit), 24);
    BitLengthBounds(Shift(m, e - unit), 23);
  }

  lemma OddFits(n: Dyadic) returns (bits: nat)
    requires n.m % 2 == 1 && BitLength(Abs(n.m)) <= 24 && n.e >= -149 && n.e + BitLength(Abs(n.m)) <= 128
    ensures Finite(bits) && Odd(NumberOf(bits)) == n
  {
    var unit := UnitOf(n.e, BitLength(Abs(n.m)));
    UnitFits(Abs(n.m), n.e);
    var a := Shift(Abs(n.m), n.e - unit);
    bits := Assembled(n.m < 0, a, unit);
    AssembledDenotes(n.m < 0, a, unit);
    SignedShift(n.m, n.e - unit);
    OddOfShifted(n.m, unit, n.e - unit);
  }

  lemma SignedShift(m: int, j: nat)
    ensures Signed(m < 0, Shift(Abs(m), j)) == Shift(m, j)
  {
    ShiftSign(m, j);
  }

  lemma FittingNumberHasAFloat(d: Dyadic) returns (bits: nat)
    requires FitsFloat32(d)
    ensures Finite(bits) && Same(NumberOf(bits), d)
  {
    if d.m == 0 {
      bits := 0;
      PatternFields(false, 0, 0);
    } else {
      bits := OddFits(Odd(d));
    }
    SameExactlyWhenOddsAgree(NumberOf(bits), d);
  }

  /** A number is equal to some float32 exactly when it fits one. */
  lemma IsAFloat32ExactlyWhenItFits(d: Dyadic)
    ensures (exists bits :: Finite(bits) && Same(NumberOf(bits), d)) <==> FitsFloat32(d)
  {
    if FitsFloat32(d) {
      var bits := FittingNumberHasAFloat(d);
    }
    if bits :| Finite(bits) && Same(NumberOf(bits), d) {
      FloatsFit(bits);
      SameExactlyWhenOddsAgree(NumberOf(bits), d);
    }
  }

  /** The float64 nearest to 0.1. */
  const TENTH := Dyadic(3602879701896397, -55)

  lemma ATenthIsNoFloat32(bits: nat)
    requires Finite(bits)
    ensures !Same(NumberOf(bits), TENTH)
  {
    Pow24();
    BitLengthBounds(3602879701896397, 24);
    IsAFloat32ExactlyWhenItFits(TENTH);
  }
}
