/** What the float patterns of the wire mean: IEEE 754 single precision, told by its laws, and how the program compares. */
module Floats {
  import opened Model

  lemma {:induction false} TwoToDoubles(e: int)
    ensures TwoTo(e + 1) == 2.0 * TwoTo(e)
  {
  }

  lemma Fields(bits: float32, e: int, f: int)
    requires 0 <= e < 0x100 && 0 <= f < 0x80_0000
    requires bits == 0x80_0000 * e + f || bits == 0x8000_0000 + 0x80_0000 * e + f
    ensures bits / 0x80_0000 % 0x100 == e && bits % 0x80_0000 == f
    ensures bits >= 0x8000_0000 <==> bits == 0x8000_0000 + 0x80_0000 * e + f
  {
  }

  /** A pattern is taken apart into sign, exponent and fraction. */
  lemma PatternIs(bits: float32) returns (negative: bool, e: int, f: int)
    ensures 0 <= e < 0x100 && 0 <= f < 0x80_0000
    ensures bits == (if negative then 0x8000_0000 else 0) + 0x80_0000 * e + f
  {
    negative := bits >= 0x8000_0000;
    var rest := if negative then bits - 0x8000_0000 else bits;
    e, f := rest / 0x80_0000, rest % 0x80_0000;
  }

  lemma MeaningIs(bits: float32, e: int, f: int)
    requires 0 <= e < 0x100 && 0 <= f < 0x80_0000
    requires bits == 0x80_0000 * e + f || bits == 0x8000_0000 + 0x80_0000 * e + f
    ensures
      var sign := if bits >= 0x8000_0000 then -1.0 else 1.0;
      FloatOf(bits) ==
        if e == 0xFF then (if f != 0 then NaN else if sign < 0.0 then NegInf else PosInf)
        else if e == 0 then Finite(sign * f as real * TwoTo(-149))
        else Finite(sign * (0x80_0000 + f) as real * TwoTo(e - 150))
  {
    hide TwoTo;
    Fields(bits, e, f);
  }

  /** The patterns that are no numbers: the infinities, and everything beyond them. */
  lemma NotFinite(bits: float32)
    ensures FloatOf(bits) == PosInf <==> bits == 0x7F80_0000
    ensures FloatOf(bits) == NegInf <==> bits == 0xFF80_0000
    ensures FloatOf(bits) == NaN <==> 0x7F80_0000 < bits < 0x8000_0000 || 0xFF80_0000 < bits
  {
    hide FloatOf, TwoTo;
    var negative, e, f := PatternIs(bits);
    MeaningIs(bits, e, f);
  }

  lemma {:induction false} PowersMeet(n: int)
    requires n >= 0
    ensures TwoTo(n) * TwoTo(-n) == 1.0
  {
    if n > 0 {
      PowersMeet(n - 1);
      Scaled(TwoTo(n - 1), TwoTo(-(n - 1)));
      assert TwoTo(n) == 2.0 * TwoTo(n - 1) && TwoTo(-n) == TwoTo(-n + 1) / 2.0;
    }
  }

  lemma Scaled(x: real, y: real)
    ensures (2.0 * x) * (y / 2.0) == x * y
  {
  }

  lemma EightMillion()
    ensures TwoTo(23) == 8388608.0
  {
    assert TwoTo(5) == 32.0;
    assert TwoTo(10) == 1024.0;
    assert TwoTo(15) == 32768.0;
    assert TwoTo(20) == 1048576.0;
  }

  /** One is one. */
  lemma OneIs()
    ensures FloatOf(0x3F80_0000) == Finite(1.0)
  {
    hide FloatOf, TwoTo;
    MeaningIs(0x3F80_0000, 127, 0);
    EightMillion();
    PowersMeet(23);
  }

  lemma SignFlips(x: real, t: real)
    ensures (-1.0 * x) * t == -((1.0 * x) * t)
  {
  }

  /** The highest bit is the sign. */
  lemma SignIs(bits: float32)
    requires bits < 0x7F80_0000
    ensures FloatOf(bits).Finite? && FloatOf(bits + 0x8000_0000) == Finite(-FloatOf(bits).value)
  {
    hide FloatOf, TwoTo;
    var negative, e, f := PatternIs(bits);
    MeaningIs(bits, e, f);
    MeaningIs(bits + 0x8000_0000, e, f);
    SignFlips(f as real, TwoTo(-149));
    SignFlips((0x80_0000 + f) as real, TwoTo(e - 150));
  }

  lemma Doubled(x: real, t: real)
    ensures x * (2.0 * t) == 2.0 * (x * t)
  {
  }

  /** The next exponent doubles a normal number. */
  lemma ExponentIs(bits: float32)
    requires 0x80_0000 <= bits < 0x7F00_0000
    ensures FloatOf(bits).Finite? && FloatOf(bits + 0x80_0000) == Finite(2.0 * FloatOf(bits).value)
  {
    hide FloatOf, TwoTo;
    var negative, e, f := PatternIs(bits);
    MeaningIs(bits, e, f);
    MeaningIs(bits + 0x80_0000, e + 1, f);
    TwoToDoubles(e - 150);
    Doubled(1.0 * (0x80_0000 + f) as real, TwoTo(e - 150));
  }

  lemma Parts(n: real, f: real, t: real)
    requires n != 0.0
    ensures (1.0 * (n + f)) * t == (1.0 * n) * t * ((n + f) / n)
  {
    assert n * ((n + f) / n) == n + f;
    assert n * t * ((n + f) / n) == n * ((n + f) / n) * t;
  }

  /** The fraction adds its part of two to the twenty-third; below the smallest normal number all steps are equal. */
  lemma FractionIs(bits: float32)
    requires bits < 0x7F80_0000
    ensures var f := bits % 0x80_0000;
      && FloatOf(bits).Finite?
      && (bits >= 0x80_0000 ==>
            FloatOf(bits - f).Finite? && FloatOf(bits).value == FloatOf(bits - f).value * ((8388608.0 + f as real) / 8388608.0))
      && (bits < 0x80_0000 ==> FloatOf(bits).value == f as real * FloatOf(1).value && FloatOf(0x80_0000) == Finite(8388608.0 * FloatOf(1).value))
  {
    hide FloatOf, TwoTo;
    var negative, e, f := PatternIs(bits);
    assert bits % 0x80_0000 == f;
    MeaningIs(bits, e, f);
    if e > 0 {
      MeaningIs(bits - f, e, 0);
      Parts(8388608.0, f as real, TwoTo(e - 150));
    } else {
      MeaningIs(1, 0, 1);
      MeaningIs(0x80_0000, 1, 0);
    }
  }

  /** Comparisons: between numbers as usual, the infinities outside of them, and never with NaN. */
  lemma ComparesAs(x: real, y: real, f: Float)
    ensures Finite(x).Less(Finite(y)) <==> x < y
    ensures Finite(x).AtMost(Finite(y)) <==> x <= y
    ensures NegInf.Less(Finite(x)) && Finite(x).Less(PosInf) && NegInf.Less(PosInf)
    ensures !PosInf.Less(f) && !f.Less(NegInf) && PosInf.AtMost(PosInf) && NegInf.AtMost(NegInf)
    ensures !NaN.Less(f) && !f.Less(NaN) && !NaN.AtMost(f) && !f.AtMost(NaN)
    ensures Finite(x).Negative() <==> x < 0.0
    ensures Finite(x).AtLeastZero() <==> x >= 0.0
    ensures NegInf.Negative() && !PosInf.Negative() && !NaN.Negative()
    ensures PosInf.AtLeastZero() && !NegInf.AtLeastZero() && !NaN.AtLeastZero()
    ensures Finite(x).Half() == Finite(x / 2.0) && PosInf.Half() == PosInf
  {
  }
}
