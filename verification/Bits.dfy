/** Bits of 16-bit words. */
module Bits {
  import opened Octets

  function Pow2(n: nat): (r: nat)
    ensures r >= 1
  {
    if n == 0 then 1 else 2 * Pow2(n - 1)
  }

  predicate BitOf(w: nat, bit: nat) {
    if bit == 0 then w % 2 == 1 else BitOf(w / 2, bit - 1)
  }

  /** `1 << bit` in uint16 arithmetic. */
  function Mask(bit: nat): (w: uint16)
    requires bit <= 15
    ensures w == Pow2(bit)
  {
    Pow2Below(bit, 15);
    assert Pow2(15) == 2 * Pow2(14) && Pow2(14) == 2 * Pow2(13) && Pow2(13) == 2 * Pow2(12) && Pow2(12) == 4096;
    Pow2(bit)
  }

  lemma {:induction false} Pow2Below(a: nat, b: nat)
    requires a <= b
    ensures Pow2(a) <= Pow2(b)
    decreases b
  {
    if a < b {
      Pow2Below(a, b - 1);
    }
  }

  lemma {:induction false} BitOfPow2(n: nat, i: nat)
    ensures BitOf(Pow2(n), i) <==> i == n
  {
    if n > 0 && i > 0 {
      assert Pow2(n) / 2 == Pow2(n - 1);
      BitOfPow2(n - 1, i - 1);
    } else if n == 0 && i > 0 {
      ZeroHasNoBits(i - 1);
    }
  }

  lemma {:induction false} ZeroHasNoBits(i: nat)
    ensures !BitOf(0, i)
  {
    if i > 0 {
      ZeroHasNoBits(i - 1);
    }
  }

  lemma {:induction false} AllBitsSet(width: nat, i: nat)
    requires i < width
    ensures BitOf(Pow2(width) - 1, i)
  {
    assert (Pow2(width) - 1) / 2 == Pow2(width - 1) - 1 && (Pow2(width) - 1) % 2 == 1;
    if i > 0 {
      AllBitsSet(width - 1, i - 1);
    }
  }

  // -------------------------------------------------------------- operators

  datatype Operator = And | Or | AndNot

  predicate Combine(op: Operator, a: bool, b: bool) {
    match op
    case And => a && b
    case Or => a || b
    case AndNot => a && !b
  }

  /** A bitwise operator on the lowest `width` bits. */
  function Bitwise(op: Operator, a: nat, b: nat, width: nat): (r: nat)
    ensures r < Pow2(width)
  {
    if width == 0 then 0
    else (if Combine(op, a % 2 == 1, b % 2 == 1) then 1 else 0) + 2 * Bitwise(op, a / 2, b / 2, width - 1)
  }

  lemma {:induction false} BitwiseBits(op: Operator, a: nat, b: nat, width: nat, i: nat)
    requires i < width
    ensures BitOf(Bitwise(op, a, b, width), i) <==> Combine(op, BitOf(a, i), BitOf(b, i))
  {
    var r := Bitwise(op, a, b, width);
    assert r / 2 == Bitwise(op, a / 2, b / 2, width - 1);
    if i > 0 {
      BitwiseBits(op, a / 2, b / 2, width - 1, i - 1);
    }
  }

  lemma Pow16()
    ensures Pow2(16) == 0x1_0000
  {
    assert Pow2(16) == 16 * Pow2(12) && Pow2(12) == 4096;
  }

  /** The operators of Go on uint16 values. */
  function Word(op: Operator, a: uint16, b: uint16): uint16 {
    Pow16();
    Bitwise(op, a, b, 16)
  }

  lemma {:induction false} SameBits(a: nat, b: nat, width: nat)
    requires a < Pow2(width) && b < Pow2(width)
    requires forall i :: 0 <= i < width ==> (BitOf(a, i) <==> BitOf(b, i))
    ensures a == b
  {
    if width > 0 {
      assert BitOf(a, 0) <==> BitOf(b, 0);
      forall i | 0 <= i < width - 1 ensures BitOf(a / 2, i) <==> BitOf(b / 2, i) {
        assert BitOf(a, i + 1) <==> BitOf(b, i + 1);
      }
      SameBits(a / 2, b / 2, width - 1);
    }
  }

  // -------------------------------------------------------------- setting one bit

  /** `w` with one bit set to `target`, by its place. */
  function SetBit(w: nat, bit: nat, target: bool): nat {
    if bit == 0 then w - w % 2 + (if target then 1 else 0) else w % 2 + 2 * SetBit(w / 2, bit - 1, target)
  }

  lemma Halves(low: nat, high: nat)
    requires low < 2
    ensures (low + 2 * high) / 2 == high && (low + 2 * high) % 2 == low
  {
  }

  lemma {:induction false} SetBitSetsOnlyThatBit(w: nat, bit: nat, target: bool, i: nat)
    ensures BitOf(SetBit(w, bit, target), i) <==> if i == bit then target else BitOf(w, i)
  {
    if bit == 0 {
      assert w - w % 2 == 2 * (w / 2);
      Halves(if target then 1 else 0, w / 2);
    } else {
      Halves(w % 2, SetBit(w / 2, bit - 1, target));
      if i > 0 {
        SetBitSetsOnlyThatBit(w / 2, bit - 1, target, i - 1);
      }
    }
  }

  lemma {:induction false} SetBitStaysBelow(w: nat, bit: nat, target: bool, width: nat)
    requires bit < width && w < Pow2(width)
    ensures SetBit(w, bit, target) < Pow2(width)
  {
    assert Pow2(width) == 2 * Pow2(width - 1) && w / 2 < Pow2(width - 1);
    if bit > 0 {
      SetBitStaysBelow(w / 2, bit - 1, target, width - 1);
    }
  }

  function WordWithBit(w: uint16, bit: nat, target: bool): uint16
    requires bit <= 15
  {
    Pow16();
    SetBitStaysBelow(w, bit, target, 16);
    SetBit(w, bit, target)
  }

  /** A word whose bits are those of `w`, except one, is `w` with that bit set. */
  lemma OneBitApart(r: uint16, w: uint16, bit: nat, target: bool)
    requires bit <= 15
    requires forall i :: 0 <= i < 16 ==> (BitOf(r, i) <==> if i == bit then target else BitOf(w, i))
    ensures r == WordWithBit(w, bit, target)
  {
    Pow16();
    forall i | 0 <= i < 16 ensures BitOf(r, i) <==> BitOf(WordWithBit(w, bit, target), i) {
      SetBitSetsOnlyThatBit(w, bit, target, i);
    }
    SameBits(r, WordWithBit(w, bit, target), 16);
  }

  ghost predicate AgreeExcept(a: nat, b: nat, bit: nat) {
    forall i :: 0 <= i < 16 && i != bit ==> (BitOf(a, i) <==> BitOf(b, i))
  }

  /** Setting a bit in two words gives the same word exactly when they agree everywhere else. */
  lemma SetBitsAgreeExactlyWhen(a: uint16, b: uint16, bit: nat, target: bool)
    requires bit <= 15
    ensures WordWithBit(a, bit, target) == WordWithBit(b, bit, target) <==> AgreeExcept(a, b, bit)
  {
    var x, y := WordWithBit(a, bit, target), WordWithBit(b, bit, target);
    forall i | 0 <= i < 16
      ensures BitOf(x, i) <==> if i == bit then target else BitOf(a, i)
      ensures BitOf(y, i) <==> if i == bit then target else BitOf(b, i)
    {
      SetBitSetsOnlyThatBit(a, bit, target, i);
      SetBitSetsOnlyThatBit(b, bit, target, i);
    }
    if AgreeExcept(a, b, bit) {
      OneBitApart(x, b, bit, target);
    }
  }
}
