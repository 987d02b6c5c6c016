/**
 * The slow path of the decimal conversion: exact rounding by big-integer
 * arithmetic, for a non-negative and for a negative decimal exponent.
 */
module DigitComparison {
  import opened Powers
  import opened Bits
  import opened Limbs
  import opened BigInt
  import opened Binary64
  import opened Rounding

  lemma ScaleWindow(hi: nat, unit: nat, v: nat, k: nat)
    requires k > 0 && hi * unit <= v < hi * unit + unit
    ensures hi * (unit * k) <= v * k < hi * (unit * k) + unit * k
    ensures hi * (unit * k) == v * k <==> hi * unit == v
  {
    Associate(hi, unit, k);
    var low := hi * unit;
    MulMonotone(low, v, k, k);
    MulMonotone(v + 1, low + unit, k, k);
    Distribute(v, 1, k);
    Distribute(low, unit, k);
    if low < v {
      MulMonotone(low + 1, v, k, k);
      Distribute(low, 1, k);
    }
  }

  /** The leading 64 bits of an integer, as an adjusted mantissa. */
  lemma TopBitsAdjusted(v: nat, hi: nat, truncated: bool, shift: nat)
    requires TopBits(v, hi, truncated) && shift >= 64
    ensures var unit := Pow(2, BitLen(v) + (shift - 64));
      && hi * unit <= v * Pow(2, shift) < hi * unit + unit
      && (truncated <==> hi * unit != v * Pow(2, shift))
  {
    var k := Pow(2, shift - 64);
    PowAdd(2, BitLen(v), shift - 64);
    PowAdd(2, 64, shift - 64);
    Pow2Word();
    Associate(v, 0x1_0000_0000_0000_0000, k);
    ScaleWindow(hi, Pow(2, BitLen(v)), v * 0x1_0000_0000_0000_0000, k);
  }

  lemma PositiveRounds(v: nat, hi: Limb, truncated: bool, power2: nat)
    requires TopBits(v, hi, truncated) && hi >= 0x8000_0000_0000_0000
    requires power2 == BitLen(v) + 1011
    ensures RoundsTo(Scaled(v, 1), Clamp(Chop(hi, power2) + Bit(TieUp(hi, 11, truncated))))
  {
    hide Pow, RoundsUpTo, TieUp, Chop, Lesser, Times;
    TopBitsAdjusted(v, hi, truncated, 1075);
    TimesPow(v, 2, 1075);
    TruncatedRounds(hi, power2, truncated, Times(v, 2, 1075), INFINITY);
  }

  /** A non-negative exponent: the integer's leading bits and a sticky bit decide. */
  method PositiveDigitComp(bigmant: Bigint, exponent: nat) returns (answer: AdjustedMantissa)
    requires bigmant.Valid() && bigmant.Tidy() && bigmant.Value() > 0
    requires Times(bigmant.Value(), 10, exponent) < Weight(62)
    modifies bigmant, bigmant.data
    ensures fresh(answer) && answer.Final()
    ensures RoundsTo(DecimalValue(old(bigmant.Value()), exponent), answer.Word())
  {
    hide Pow, Weight, Scaled, RoundsTo, TopBits, BitLen, Times;
    TimesGrows(bigmant.Value(), 10, exponent);
    TimesPow(bigmant.Value(), 10, exponent);
    var fits := bigmant.Pow10(exponent);
    assert fits;
    var hi, truncated := bigmant.Hi64();
    var bits := bigmant.BitLength();
    PositiveRounds(bigmant.Value(), hi, truncated, bits + 1011);
    answer := new AdjustedMantissa(hi, bits - 64 + 1075);
    answer.RoundTieEvenTruncated(truncated);
  }

  /** The extended form of the point halfway to the next double. */
  method ToExtendedHalfway(b: nat) returns (mantissa: Limb, power2: int)
    requires b < INFINITY
    ensures mantissa == 2 * Sig(b) + 1 && power2 == Exp(b) - 1075
    ensures mantissa < 0x40_0000_0000_0000 && power2 < 971
  {
    var biased, fraction := b / 0x10_0000_0000_0000, b % 0x10_0000_0000_0000;
    if biased == 0 {
      mantissa, power2 := fraction, 1 - 1075;
    } else {
      mantissa, power2 := 0x10_0000_0000_0000 + fraction, biased - 1075;
    }
    mantissa := 2 * mantissa + 1;
    power2 := power2 - 1;
  }

  /** The two sides scaled to a common power of two compare as the number does with the halfway point. */
  lemma CompareScaled(r: nat, e: nat, b: nat, k: nat, l: nat)
    requires k + Exp(b) + e == 1075 + l && k <= 1075
    ensures var digits, theor := r * Pow(2, k), (2 * Sig(b) + 1) * Pow(5, e) * Pow(2, l);
      && (theor < digits <==> (Mid(b) as real) < Scaled(r, Pow(10, e)))
      && (theor == digits <==> Mid(b) as real == Scaled(r, Pow(10, e)))
  {
    hide V, Mid, Ulp, Sig, Exp, Pow, Times;
    var t, j := 2 * Sig(b) + 1, 1075 - k;
    var unit := Pow(2, j);
    TimesPow(r, 2, 1075);
    PowAdd(2, k, j);
    Associate(r, Pow(2, k), unit);
    MidClosedForm(b);
    UlpIsPower(b);
    TenIsTwoFive(e);
    PowAdd(2, Exp(b), e);
    PowAdd(2, l, j);
    MidSplits(t, Pow(2, Exp(b)), Pow(2, e), Pow(5, e), Pow(2, l), unit);
    CancelScaled(t, Pow(5, e), Pow(2, l), r, Pow(2, k), unit);
    Ratio(Mid(b), Times(r, 2, 1075), Pow(10, e));
  }

  lemma CancelScaled(t: nat, five: nat, l: nat, r: nat, k: nat, unit: nat)
    requires unit > 0
    ensures t * five * l * unit < r * k * unit <==> t * five * l < r * k
    ensures t * five * l * unit == r * k * unit <==> t * five * l == r * k
  {
    MulMonotone(0, t, 0, five);
    MulMonotone(0, t * five, 0, l);
    MulMonotone(0, r, 0, k);
    CancelOrder(t * five * l, r * k, unit);
  }

  lemma MidSplits(t: nat, ulp: nat, two: nat, five: nat, l: nat, unit: nat)
    requires ulp * two == l * unit
    ensures (t * ulp) * (two * five) == (t * five * l) * unit
  {
    assert (t * ulp) * (two * five) == (t * five) * (ulp * two);
    Associate(t * five, l, unit);
  }

  /** Products of numbers with bounded bit lengths stay below the capacity of 3968 bits. */
  lemma ThreeFactors(x: nat, y: nat, z: nat, i: nat, j: nat, k: nat)
    requires x < Pow(2, i) && y <= Pow(2, j) && z <= Pow(2, k) && i + j + k <= 3968
    ensures x * y * z < Weight(62)
  {
    hide Pow, Weight;
    WeightIsPow2(62);
    PowAdd(2, i, j);
    PowAdd(2, i + j, k);
    PowMonotone(2, i + j + k, 3968);
    LessThree(x, Pow(2, i), y, Pow(2, j), z, Pow(2, k));
  }

  lemma LessThree(x: nat, a: nat, y: nat, b: nat, z: nat, c: nat)
    requires x < a && y <= b && z <= c && b > 0 && c > 0
    ensures x * y * z < a * b * c
  {
    MulMonotone(0, x, 0, y);
    MulLess(x, a, y, b);
    MulLess(x * y, a * b, z, c);
  }

  /** The digits, shifted to meet the halfway point, fit the big integer. */
  lemma RealFits(r: nat, k: nat)
    requires r < Pow(10, 770) && k <= 1075
    ensures r * Pow(2, k) < Weight(62)
  {
    hide Pow, Weight;
    TenBelowTwo(257);
    PowMonotone(10, 770, 771);
    ThreeFactors(r, Pow(2, k), 1, 2570, k, 0) by {
      PowZero();
    }
  }

  lemma PowZero()
    ensures Pow(2, 0) == 1
  {
  }

  /** So does the halfway point, scaled to an integer. */
  lemma TheorFits(r: nat, e: nat, b: nat, l: nat)
    requires r < Pow(10, 770) && e <= 1111 && b < INFINITY
    requires Exp(b) + e <= 1075 + l && (l > 0 ==> Exp(b) + e == 1075 + l)
    requires (2 * V(b)) as real <= Scaled(r, Pow(10, e))
    ensures (2 * Sig(b) + 1) * Pow(5, e) * Pow(2, l) < Weight(62)
  {
    hide Pow, Weight, V, Scaled;
    if l <= 36 {
      FiveBelowTwo(371);
      PowMonotone(5, e, 1113);
      PowMonotone(2, l, 36);
      SmallSig(b);
      ThreeFactors(2 * Sig(b) + 1, Pow(5, e), Pow(2, l), 54, 2597, 36);
    } else {
      assert Sig(b) >= 1;
      BelowReal(r, e, b, l);
      TenBelowTwo(257);
      PowMonotone(10, 770, 771);
      PowAdd(2, 1, 2570);
      WeightIsPow2(62);
      PowMonotone(2, 2571, 3968);
      PowOne();
    }
  }

  lemma SmallSig(b: nat)
    ensures 2 * Sig(b) + 1 < Pow(2, 54)
  {
    Pow2Word();
    PowAdd(2, 54, 10);
    assert Pow(2, 10) == 1024;
  }

  lemma PowOne()
    ensures Pow(2, 1) == 2
  {
  }

  /** Above the subnormals, the scaled halfway point is at most twice the digits. */
  lemma BelowReal(r: nat, e: nat, b: nat, l: nat)
    requires Exp(b) + e == 1075 + l && Sig(b) >= 1
    requires (2 * V(b)) as real <= Scaled(r, Pow(10, e))
    ensures (2 * Sig(b) + 1) * Pow(5, e) * Pow(2, l) <= 2 * r
  {
    hide V, Ulp, Sig, Exp, Pow, Times;
    TimesPow(r, 2, 1075);
    Ratio(2 * V(b), Times(r, 2, 1075), Pow(10, e));
    ClosedForm(b);
    UlpIsPower(b);
    TenIsTwoFive(e);
    PowAdd(2, Exp(b), e);
    PowAdd(2, l, 1075);
    var s := 2 * Sig(b);
    Associate(2, Sig(b), Ulp(b));
    MidSplits(s, Pow(2, Exp(b)), Pow(2, e), Pow(5, e), Pow(2, l), Pow(2, 1075));
    CancelOrder(r, s * Pow(5, e) * Pow(2, l), Pow(2, 1075));
    MulMonotone(s + 1, 2 * s, Pow(5, e), Pow(5, e));
    MulMonotone((s + 1) * Pow(5, e), (2 * s) * Pow(5, e), Pow(2, l), Pow(2, l));
    Associate(2, s, Pow(5, e));
    Associate(2, s * Pow(5, e), Pow(2, l));
  }

  function Positive(x: int): nat {
    if x > 0 then x else 0
  }

  /** Scales real and theoretical digits to the same power of two. */
  method ScaleBoth(realDigits: Bigint, theorDigits: Bigint, pow5Exp: nat, pow2Exp: int)
    requires realDigits != theorDigits && realDigits.data != theorDigits.data
    requires realDigits.Valid() && realDigits.Tidy() && realDigits.Value() > 0
    requires theorDigits.Valid() && theorDigits.Tidy() && theorDigits.Value() > 0
    requires realDigits.Value() * Pow(2, Positive(-pow2Exp)) < Weight(62)
    requires theorDigits.Value() * Pow(5, pow5Exp) * Pow(2, Positive(pow2Exp)) < Weight(62)
    modifies realDigits, realDigits.data, theorDigits, theorDigits.data
    ensures realDigits.Valid() && realDigits.Tidy() && theorDigits.Valid() && theorDigits.Tidy()
    ensures realDigits.Value() == old(realDigits.Value()) * Pow(2, Positive(-pow2Exp))
    ensures theorDigits.Value() == old(theorDigits.Value()) * Pow(5, pow5Exp) * Pow(2, Positive(pow2Exp))
  {
    hide Weight;
    FactorBelow(theorDigits.Value(), Pow(5, pow5Exp), Pow(2, Positive(pow2Exp)));
    var fits := true;
    if pow5Exp != 0 {
      fits := theorDigits.Pow5(pow5Exp);
    }
    if pow2Exp > 0 {
      fits := theorDigits.Pow2(pow2Exp);
    } else if pow2Exp < 0 {
      fits := realDigits.Pow2(-pow2Exp);
    }
  }

  lemma FactorBelow(t: nat, x: nat, y: nat)
    requires x > 0 && y > 0
    ensures t * x <= t * x * y
    ensures t > 0 ==> t * x > 0
  {
    MulMonotone(t * x, t * x, 1, y);
    if t > 0 {
      MulMonotone(1, t, 1, x);
    }
  }

  lemma NegativeIsScaled(r: nat, exponent: int)
    requires exponent < 0
    ensures DecimalValue(r, exponent) == Scaled(r, Pow(10, -exponent))
  {
    hide Pow, Scaled;
  }

  /** The comparison with the halfway point rounds. */
  lemma OrderRounds(r: nat, exponent: int, b: nat, ord: int)
    requires exponent < 0 && b < INFINITY
    requires (2 * V(b)) as real <= DecimalValue(r, exponent) < Mid(b + 1) as real
    requires ord > 0 <==> (Mid(b) as real) < DecimalValue(r, exponent)
    requires ord == 0 <==> Mid(b) as real == DecimalValue(r, exponent)
    ensures RoundsTo(DecimalValue(r, exponent), Clamp(b + Bit(ord > 0 || (ord == 0 && b % 2 == 1))))
  {
    hide V, Mid, DecimalValue, RoundsUpTo;
    RoundBetween(DecimalValue(r, exponent), b, ord > 0 || (ord == 0 && b % 2 == 1), INFINITY);
  }

  /** Compares the digits with the halfway point above `b`, both scaled to integers. */
  method CompareHalfway(bigmant: Bigint, b: nat, exponent: int) returns (ord: int)
    requires bigmant.Valid() && bigmant.Tidy()
    requires 0 < bigmant.Value() < Pow(10, 770) && -1111 <= exponent < 0 && b < INFINITY
    requires (2 * V(b)) as real <= DecimalValue(bigmant.Value(), exponent)
    modifies bigmant, bigmant.data
    ensures ord > 0 <==> (Mid(b) as real) < DecimalValue(old(bigmant.Value()), exponent)
    ensures ord == 0 <==> Mid(b) as real == DecimalValue(old(bigmant.Value()), exponent)
  {
    hide Pow, Weight, Scaled, Mid, V, Times, Sig, Exp, DecimalValue;
    var mantissa, theorExp := ToExtendedHalfway(b);
    var theor := new Bigint.FromWord(mantissa);
    var pow2Exp := theorExp - exponent;
    ghost var r := bigmant.Value();
    NegativeIsScaled(r, exponent);
    CompareScaled(r, -exponent, b, Positive(-pow2Exp), Positive(pow2Exp));
    RealFits(r, Positive(-pow2Exp));
    TheorFits(r, -exponent, b, Positive(pow2Exp));
    ScaleBoth(bigmant, theor, -exponent, pow2Exp);
    ord := bigmant.Compare(theor);
  }

  /**
   * A negative exponent: the digits are compared with the halfway point above
   * the double below, both scaled to integers.
   */
  method NegativeDigitComp(bigmant: Bigint, am: AdjustedMantissa, exponent: int) returns (answer: AdjustedMantissa)
    requires bigmant.Valid() && bigmant.Tidy()
    requires 0 < bigmant.Value() < Pow(10, 770) && -1111 <= exponent < 0
    requires am.mantissa >= 0x8000_0000_0000_0000
    requires var b := Chop(am.mantissa, am.power2);
      b < INFINITY && (2 * V(b)) as real <= DecimalValue(bigmant.Value(), exponent) < Mid(b + 1) as real
    modifies bigmant, bigmant.data
    ensures fresh(answer) && answer.Final()
    ensures RoundsTo(DecimalValue(old(bigmant.Value()), exponent), answer.Word())
  {
    hide Pow, Weight, RoundsTo, V, Mid, Times, DecimalValue;
    var amB := new AdjustedMantissa(am.mantissa, am.power2);
    amB.RoundDown();
    ghost var r := bigmant.Value();
    var b := amB.Word();
    var ord := CompareHalfway(bigmant, b, exponent);
    OrderRounds(r, exponent, b, ord);
    answer := new AdjustedMantissa(am.mantissa, am.power2);
    answer.RoundDoubleTieEvenCmp(ord);
  }
}
