/**
 * The whole slow path: from the digits of a literal to the correctly rounded
 * double, whatever the number of digits.
 */
module SlowPath {
  import opened Bytes
  import opened Powers
  import opened Limbs
  import opened BigInt
  import opened Binary64
  import opened Rounding
  import opened DigitComparison
  import opened Halfway
  import opened Mantissa
  import opened Decimal

  const MAX_DIGITS := 769
  const INVALID_AM_BIAS := -0x8000

  /** The number of decimal digits of a positive number. */
  function DigitCount(n: nat): nat {
    if n < 10 then 1 else 1 + DigitCount(n / 10)
  }

  lemma DropTwo(n: nat)
    requires n >= 100
    ensures DigitCount(n) == 2 + DigitCount(n / 100)
  {
    assert n / 10 / 10 == n / 100;
  }

  lemma DropFour(n: nat)
    requires n >= 10000
    ensures DigitCount(n) == 4 + DigitCount(n / 10000)
  {
    DropTwo(n);
    DropTwo(n / 100);
    assert n / 100 / 100 == n / 10000;
  }

  lemma {:induction false} DigitCountBounds(n: nat, k: nat)
    requires n < Pow(10, k) && k > 0
    ensures DigitCount(n) <= k
  {
    if n >= 10 {
      DigitCountBounds(n / 10, k - 1);
    }
  }

  /** The exponent of the leading digit. */
  method ScientificExponent(mantissa0: Limb, exponent0: int) returns (exponent: int)
    ensures exponent == exponent0 + DigitCount(mantissa0) - 1
  {
    var mantissa: nat := mantissa0;
    exponent := exponent0;
    while mantissa >= 10000
      invariant exponent + DigitCount(mantissa) == exponent0 + DigitCount(mantissa0)
    {
      DropFour(mantissa);
      mantissa := mantissa / 10000;
      exponent := exponent + 4;
    }
    while mantissa >= 100
      invariant exponent + DigitCount(mantissa) == exponent0 + DigitCount(mantissa0)
    {
      DropTwo(mantissa);
      mantissa := mantissa / 100;
      exponent := exponent + 2;
    }
    while mantissa >= 10
      invariant exponent + DigitCount(mantissa) == exponent0 + DigitCount(mantissa0)
    {
      mantissa := mantissa / 10;
      exponent := exponent + 1;
    }
  }

  lemma {:induction false} LeadingDigit(w: seq<Byte>)
    requires AllDigits(w) && w != [] && w[0] != ZERO
    ensures Value(w) >= Pow(10, |w| - 1)
  {
    var u := w[..|w| - 1];
    if u != [] {
      LeadingDigit(u);
    } else {
      assert Value(u) == 0;
    }
  }

  lemma {:induction false} ZeroValue(s: seq<Byte>)
    requires AllDigits(s)
    ensures Value(s) == 0 <==> AllZeros(s)
  {
    if s != [] {
      var u := s[..|s| - 1];
      ZeroValue(u);
      assert s == u + [s[|s| - 1]];
    }
  }

  /** Appending k zero digits moves the decimal point by k. */
  lemma {:induction false} AppendZeros(n: nat, s: int, k: nat)
    ensures DecimalValue(n * Pow(10, k), s) == DecimalValue(n, s + k)
    decreases k
  {
    hide DecimalValue;
    if k > 0 {
      AppendZeros(n, s + 1, k - 1);
      AppendZero(n * Pow(10, k - 1), s + 1);
      assert 10 * (n * Pow(10, k - 1)) == n * (10 * Pow(10, k - 1));
    }
  }

  /** Where the full number lies, seen from its first 769 digits. */
  lemma TailInGap(w: seq<Byte>, x: int)
    requires AllDigits(w) && |w| > 769
    ensures var n, s := Value(w[..769]), x + |w| - 769;
      && (AllZeros(w[769..]) ==> DecimalValue(Value(w), x) == DecimalValue(n, s))
      && (!AllZeros(w[769..]) ==> DecimalValue(n, s) < DecimalValue(Value(w), x) < DecimalValue(n + 1, s))
  {
    hide DecimalValue, Pow, Value;
    var n, k, tail := Value(w[..769]), |w| - 769, w[769..];
    assert w == w[..769] + tail;
    ValueConcat(w[..769], tail);
    ValueBelow(tail);
    ZeroValue(tail);
    AppendZeros(n, x, k);
    AppendZeros(n + 1, x, k);
    Distribute(n, 1, Pow(10, k));
    if Value(tail) > 0 {
      DecimalLess(n * Pow(10, k), Value(w), x);
      DecimalLess(Value(w), (n + 1) * Pow(10, k), x);
    }
  }

  /** Cutting at 769 digits with a sticky 1 keeps both the rounding and the surrounding doubles. */
  lemma CutRounds(w: seq<Byte>, x: int, i: nat)
    requires AllDigits(w) && w != [] && w[0] != ZERO
    ensures var c := Cut(w, 769);
      RoundsTo(DecimalValue(Value(w), x), i) <==> RoundsTo(DecimalValue(c.0, x + |w| - c.1), i)
  {
    hide DecimalValue, Pow, RoundsTo, Value, AllZeros;
    if |w| > 769 {
      TailInGap(w, x);
      var n, s := Value(w[..769]), x + |w| - 769;
      LeadingDigit(w[..769]);
      if !AllZeros(w[769..]) {
        StickyDigit(n, s, DecimalValue(Value(w), x), i);
      }
    }
  }

  lemma CutBetween(w: seq<Byte>, x: int, b: nat)
    requires AllDigits(w) && w != [] && w[0] != ZERO && b < INFINITY
    requires (2 * V(b)) as real <= DecimalValue(Value(w), x) < Mid(b + 1) as real
    ensures var c := Cut(w, 769);
      (2 * V(b)) as real <= DecimalValue(c.0, x + |w| - c.1) < Mid(b + 1) as real
  {
    hide DecimalValue, Pow, V, Mid, Value, AllZeros;
    if |w| > 769 {
      TailInGap(w, x);
      var n, s := Value(w[..769]), x + |w| - 769;
      LeadingDigit(w[..769]);
      if !AllZeros(w[769..]) {
        StickyBetween(n, s, DecimalValue(Value(w), x), b);
      }
    }
  }

  lemma CutBelow(w: seq<Byte>)
    requires AllDigits(w) && w != [] && w[0] != ZERO
    ensures var c := Cut(w, 769);
      0 < c.0 < Pow(10, c.1) && 0 < c.1 <= 770 && c.0 < Pow(10, 770)
  {
    hide Pow, Value;
    var u := if |w| <= 769 then w else w[..769];
    LeadingDigit(u);
    ValueBelow(u);
    PowAdd(10, 1, |u|);
    PowersOfTen(1);
    PowMonotone(10, |u| + 1, 770);
    PowMonotone(10, |u|, 770);
  }

  /** With a leading digit below 10^400 the scaled integer fits. */
  lemma ScaledFits(v: nat, digits: nat, e: nat)
    requires v < Pow(10, digits) && digits + e <= 400
    ensures Times(v, 10, e) < Weight(62)
  {
    hide Pow, Weight;
    TimesPow(v, 10, e);
    PowAdd(10, digits, e);
    PowMonotone(10, digits + e, 770);
    MulLess(v, Pow(10, digits), Pow(10, e), Pow(10, e));
    DigitsFit();
  }

  lemma {:induction false} StripLeads(s: seq<Byte>)
    ensures Strip(s) != [] ==> Strip(s)[0] != ZERO
  {
    if s != [] && s[0] == ZERO {
      StripLeads(s[1..]);
    }
  }

  /**
   * The slow path. The literal's significant digits `w` end at decimal
   * position `x`; `mantissa` and `exponent` are its first digits; `am` is a
   * biased approximation whose double rounded down has the number at or above it
   * and below the halfway point above its successor. The result is the number rounded to nearest, ties to even.
   */
  method DigitComp(intPart: seq<Byte>, fraction: Option<seq<Byte>>, mantissa: Limb, exponent: int, am: AdjustedMantissa,
                   ghost w: seq<Byte>, ghost x: int)
    returns (answer: AdjustedMantissa)
    requires AllDigits(intPart) && (fraction.Some? ==> AllDigits(fraction.value))
    requires w == Strip(intPart + if fraction.Some? then fraction.value else []) && w != [] && AllDigits(w)
    requires -342 <= exponent <= 308 && exponent + DigitCount(mantissa) == x + |w|
    requires am.mantissa >= 0x8000_0000_0000_0000
    requires x + |w| < Cut(w, 769).1 ==>
      var b := Chop(am.mantissa, am.power2 - INVALID_AM_BIAS);
      b < INFINITY && (2 * V(b)) as real <= DecimalValue(Value(w), x) < Mid(b + 1) as real
    ensures fresh(answer) && answer.Final()
    ensures RoundsTo(DecimalValue(Value(w), x), answer.Word())
  {
    hide DecimalValue, Pow, RoundsTo, Value, V, Mid, Chop, Cut, Strip, AllZeros, Weight;
    var unbiased := new AdjustedMantissa(am.mantissa, am.power2 - INVALID_AM_BIAS);
    var sciExp := ScientificExponent(mantissa, exponent);
    var bigmant := new Bigint.FromWord(0);
    var digits := ParseMantissa(bigmant, intPart, fraction, MAX_DIGITS);
    ghost var v := bigmant.Value();
    StripLeads(intPart + if fraction.Some? then fraction.value else []);
    CutBelow(w);
    var exponent' := sciExp + 1 - digits;
    if exponent' >= 0 {
      WordDigits(mantissa);
      ScaledFits(v, digits, exponent');
      answer := PositiveDigitComp(bigmant, exponent');
    } else {
      var b := Chop(am.mantissa, am.power2 - INVALID_AM_BIAS);
      CutBetween(w, x, b);
      answer := NegativeDigitComp(bigmant, unbiased, exponent');
    }
    CutRounds(w, x, answer.Word());
  }

  lemma WordDigits(n: Limb)
    ensures 1 <= DigitCount(n) <= 20
  {
    PowersOfTen(19);
    assert Pow(10, 20) == 10 * Pow(10, 19);
    DigitCountBounds(n, 20);
  }
}
