/**
 * Decimal text to binary64: fast path, 19-digit bracket, and the slow path
 * when the bracket is not decisive.
 */
module Conversion {
  import opened Bytes
  import opened Decimal
  import opened Powers
  import opened Limbs
  import opened Binary64
  import opened Rounding
  import opened Halfway
  import opened Mantissa
  import opened PowersOfFive
  import opened Product
  import opened FastPath
  import opened SlowPath
  import opened NumberString
  import NumberText

  /** The digits of a literal denote this many units of 10^LastPlace. */
  function LastPlace(l: Layout): int
    requires AllDigits(l.expDigits)
  {
    var e: int := Value(l.expDigits);
    (if l.expNegative then -e else e) - |FractionDigits(l.fraction)|
  }

  /** The parser's exponent of the last digit, from its own accumulation. */
  function ParsedPlace(l: Layout): int
    requires AllDigits(l.expDigits)
  {
    SignedExponent(l.expDigits, l.expNegative) - |FractionDigits(l.fraction)|
  }

  /** The written exponent is within what the parser accumulates without a cut. */
  predicate ExactExponent(l: Layout)
    requires AllDigits(l.expDigits)
  {
    Value(l.expDigits) / 10 < 0x1000_0000
  }

  lemma ExactPlace(l: Layout)
    requires AllDigits(l.expDigits)
    ensures ParsedPlace(l) == LastPlace(l) <==> ExactExponent(l)
  {
    hide Value, ExpNumber;
    ExpNumberExact(l.expDigits);
  }

  predicate WellFormed(l: Layout) {
    AllDigits(l.intPart) && AllDigits(FractionDigits(l.fraction)) && AllDigits(l.expDigits) && AllDigits(AllDigitsOf(l))
  }

  /** The number a literal denotes, in units of 2^-1075. */
  function Denoted(l: Layout): real
    requires WellFormed(l)
  {
    DecimalValue(Value(AllDigitsOf(l)), LastPlace(l))
  }

  /** The number the parser reads, with the exponent it has accumulated. */
  function AsRead(l: Layout): real
    requires WellFormed(l)
  {
    DecimalValue(Value(AllDigitsOf(l)), ParsedPlace(l))
  }

  /** The parser's result brackets the number read; up to 19 digits it is exact. */
  lemma ReadBrackets(l: Layout, a: Parsed)
    requires WellFormed(l) && Brackets(l, a)
    ensures !a.tooManyDigits ==> DecimalValue(a.mantissa, a.exponent) == AsRead(l)
    ensures DecimalValue(a.mantissa, a.exponent) <= AsRead(l) < DecimalValue(a.mantissa + 1, a.exponent)
  {
    hide DecimalValue, Value, Pow;
    var all, x := AllDigitsOf(l), ParsedPlace(l);
    if !a.tooManyDigits {
      DecimalLess(a.mantissa, a.mantissa + 1, a.exponent);
    } else {
      var k := a.exponent - x;
      var head, tail := all[..|all| - k], all[|all| - k..];
      assert all == head + tail;
      ValueConcat(head, tail);
      ValueBelow(tail);
      AppendZeros(a.mantissa, x, k);
      AppendZeros(a.mantissa + 1, x, k);
      Distribute(a.mantissa, 1, Pow(10, k));
      DecimalLess(Value(all), (a.mantissa + 1) * Pow(10, k), x);
      if Value(tail) > 0 {
        DecimalLess(a.mantissa * Pow(10, k), Value(all), x);
      }
    }
  }

  /** With up to 19 digits, the parser's number is the literal's if and only if the exponent is not cut, or the number is zero. */
  lemma ParsedExactly(l: Layout, a: Parsed)
    requires WellFormed(l) && Brackets(l, a) && !a.tooManyDigits
    ensures DecimalValue(a.mantissa, a.exponent) == Denoted(l) <==> ExactExponent(l) || Value(AllDigitsOf(l)) == 0
  {
    hide DecimalValue, Value;
    var n, x, y := Value(AllDigitsOf(l)), LastPlace(l), ParsedPlace(l);
    ExactPlace(l);
    if n == 0 {
      ZeroDecimal(x);
      ZeroDecimal(y);
    } else if x < y {
      HigherPlace(n, x, y);
    } else if y < x {
      HigherPlace(n, y, x);
    }
  }

  lemma {:induction false} ZerosStripped(n: nat, c: Byte)
    requires c != ZERO
    ensures Strip(seq(n, _ => ZERO) + [c]) == [c]
  {
    var s := seq(n, _ => ZERO) + [c];
    if n > 0 {
      ZerosStripped(n - 1, c);
      assert s[1..] == seq(n - 1, _ => ZERO) + [c];
    }
  }

  lemma CutExponent()
    ensures AllDigits(NatText(2684354560)) && ExpNumber(NatText(2684354560)) == 0x1000_0000
  {
    hide Value;
    var digits := NatText(268435456);
    ValueOfNatText(268435456);
    ValueOfNatText(2684354560);
    ExpNumberExact(digits);
    assert NatText(2684354560) == digits + [ZERO];
    assert NatText(2684354560)[..|digits|] == digits;
  }

  /** "0." with 2^28 - 1 zeros and "1e2684354560" is read as 1, although it is far above the largest double. */
  lemma CutLiteral(l: Layout, a: Parsed)
    requires l.intPart == [ZERO] && l.fraction == Some(seq(0xFFF_FFFF, _ => ZERO) + [ZERO + 1])
    requires l.expDigits == NatText(2684354560) && !l.expNegative
    requires WellFormed(l) && Brackets(l, a) && (a.tooManyDigits <==> |Strip(AllDigitsOf(l))| > 19)
    ensures a.mantissa == 1 && a.exponent == 0 && RoundsTo(Denoted(l), INFINITY)
  {
    hide NatText, Value, RoundsTo, DecimalValue, Strip, ExpNumber;
    var all := AllDigitsOf(l);
    assert all == seq(0x1000_0000, _ => ZERO) + [ZERO + 1];
    ZerosStripped(0x1000_0000, ZERO + 1);
    StripValue(all);
    OneDigit([ZERO + 1], 0);
    assert [ZERO + 1][0..1] == [ZERO + 1];
    CutExponent();
    ValueOfNatText(2684354560);
    Overflows(LastPlace(l), 1);
  }

  lemma ZeroDecimal(x: int)
    ensures DecimalValue(0, x) == 0.0
  {
    hide Pow;
    TimesPow(0, 2, 1075);
    if x >= 0 {
      TimesPow(0, 10, x);
    }
  }

  lemma HigherPlace(n: nat, x: int, y: int)
    requires n > 0 && x < y
    ensures DecimalValue(n, x) < DecimalValue(n, y)
  {
    hide DecimalValue, Pow;
    AppendZeros(n, x, y - x);
    PowLess(10, 0, y - x);
    MulLess(1, Pow(10, y - x), n, n);
    DecimalLess(n, n * Pow(10, y - x), x);
  }

  lemma {:induction false} DigitCountOf(w: seq<Byte>)
    requires AllDigits(w) && w != [] && w[0] != ZERO
    ensures DigitCount(Value(w)) == |w|
  {
    var u := w[..|w| - 1];
    assert w == u + [w[|w| - 1]];
    if u == [] {
      assert Value(u) == 0;
    } else {
      DigitCountOf(u);
      LeadingDigit(u);
      assert Value(w) / 10 == Value(u);
    }
  }

  lemma NineteenDigits(n: nat)
    requires MINIMAL_NINETEEN_DIGIT_INTEGER <= n < 10 * MINIMAL_NINETEEN_DIGIT_INTEGER
    ensures DigitCount(n) == 19
  {
    DropFour(n);
    DropFour(n / 10000);
    DropFour(n / 10000 / 10000);
    DropFour(n / 10000 / 10000 / 10000);
    assert n / 10000 / 10000 / 10000 / 10000 == n / 1_0000_0000_0000_0000;
    var t := n / 1_0000_0000_0000_0000;
    assert 100 <= t < 1000;
    DropTwo(t);
  }

  /** The leading digit of the returned significand stands where the literal's does. */
  lemma LeadingPosition(l: Layout, a: Parsed)
    requires WellFormed(l) && Brackets(l, a)
    requires a.tooManyDigits <==> |Strip(AllDigitsOf(l))| > 19
    requires Strip(AllDigitsOf(l)) != []
    ensures a.exponent + DigitCount(a.mantissa) == ParsedPlace(l) + |Strip(AllDigitsOf(l))|
    ensures a.mantissa < 10 * MINIMAL_NINETEEN_DIGIT_INTEGER
  {
    hide Pow, Value, DigitCount;
    var all := AllDigitsOf(l);
    var w := Strip(all);
    StripValue(all);
    StripLeads(all);
    if !a.tooManyDigits {
      DigitCountOf(w);
      ValueBelow(w);
      PowMonotone(10, |w|, 19);
      PowersOfTen(19);
    } else {
      NineteenDigits(a.mantissa);
      HeadOfNineteen(all, a.exponent - ParsedPlace(l));
    }
  }

  /** If a proper head of the digits has a 19-digit value, it ends right after the 19th significant digit. */
  lemma HeadOfNineteen(all: seq<Byte>, k: nat)
    requires AllDigits(all) && k <= |all|
    requires MINIMAL_NINETEEN_DIGIT_INTEGER <= Value(all[..|all| - k]) < 10 * MINIMAL_NINETEEN_DIGIT_INTEGER
    ensures |Strip(all)| == 19 + k
  {
    hide Pow, Value, DigitCount;
    var head := all[..|all| - k];
    StripValue(head);
    StripLeads(head);
    NineteenDigits(Value(head));
    if Strip(head) == [] {
      NoDigits(Strip(head));
    }
    DigitCountOf(Strip(head));
    StripPrefix(all, |all| - k);
  }

  lemma {:induction false} StripPrefix(s: seq<Byte>, n: nat)
    requires n <= |s| && Strip(s[..n]) != []
    ensures |Strip(s)| == |Strip(s[..n])| + (|s| - n)
    decreases n
  {
    if s[..n][0] == ZERO {
      assert s[..n][1..] == s[1..][..n - 1];
      StripPrefix(s[1..], n - 1);
    }
  }

  /** A biased approximation: the leading 64 bits of the product, not rounded. */
  method ComputeError(q: int, w0: Limb) returns (am: AdjustedMantissa)
    requires -342 <= q <= 308 && w0 != 0
    ensures fresh(am) && am.mantissa >= 0x8000_0000_0000_0000
    ensures var b := Chop(am.mantissa, am.power2 - INVALID_AM_BIAS);
      (2 * V(b)) as real <= DecimalValue(w0, q) < (2 * V(b + 1)) as real
  {
    hide *;
    var lz := CountLeadingZeroes(w0);
    Justify(w0);
    var w := ShiftLeft(w0, lz);
    var low, high; ghost var t;
    low, high, t := ComputeProductApproximation(q, w);
    NormalEntry(q, t);
    ProductHigh(t, w, low, high);
    var hilz := if high / 0x8000_0000_0000_0000 == 1 then 0 else 1;
    var mantissa: Limb := if hilz == 0 then high else 2 * high;
    LogIs(q);
    var power2 := B10ToB2(q) + (52 + 1023) - hilz - lz - 62;
    ErrorWindow(q, w0, lz, w, high, hilz, mantissa, power2);
    am := new AdjustedMantissa(mantissa, power2 + INVALID_AM_BIAS);
  }

  /** The leading 64 bits bracket the number between neighbouring doubles. */
  lemma ErrorWindow(q: int, w0: Limb, lz: nat, w: Limb, high: Limb, hilz: nat, m: Limb, power2: int)
    requires -342 <= q <= 308 && w == w0 * Pow(2, lz) && WholeSlots(q, w, high / 0x200)
    requires hilz <= 1 && m == (if hilz == 0 then high else 2 * high) && m >= 0x8000_0000_0000_0000
    requires power2 == q + Log2Five(q) + 1076 - hilz - lz
    ensures var b := Chop(m, power2); (2 * V(b)) as real <= DecimalValue(w0, q) < (2 * V(b + 1)) as real
  {
    hide *;
    var n, a, e := high / 0x200, DecimalValue(w0, q), q + Log2Five(q) + 948 - lz;
    DecimalScaled(q, w0, lz, w);
    UnitOf(9);
    WindowOf(q, w, n, n, 9, SLOT, e, a);
    CoarserWindow(n, hilz, 137 + e, a);
    Normalized53(high, hilz, m);
    ChopWindow(m, power2, a);
  }

  lemma Normalized53(high: Limb, hilz: nat, m: Limb)
    requires hilz <= 1 && m == if hilz == 0 then high else 2 * high
    ensures m / 2048 == if hilz == 0 then high / 0x200 / 4 else high / 0x200 / 2
  {
  }

  /** A window in finer units lies in the one in units two or four times as large. */
  lemma CoarserWindow(n: nat, hilz: nat, x: int, a: real)
    requires hilz <= 1 && n as real * Two(x) <= a < (n + 1) as real * Two(x)
    ensures var k := if hilz == 0 then n / 4 else n / 2; k as real * Two(x + 2 - hilz) <= a < (k + 1) as real * Two(x + 2 - hilz)
  {
    hide Two;
    TwoNext(x);
    TwoNext(x + 1);
    var k, d: nat := if hilz == 0 then n / 4 else n / 2, if hilz == 0 then 4 else 2;
    assert Two(x + 2 - hilz) == d as real * Two(x);
    Coarser(n, k, d, Two(x), a);
  }

  lemma Coarser(n: nat, k: nat, d: nat, u: real, a: real)
    requires u > 0.0 && d > 0 && k * d <= n && n + 1 <= (k + 1) * d && n as real * u <= a < (n + 1) as real * u
    ensures k as real * (d as real * u) <= a < (k + 1) as real * (d as real * u)
  {
    Grouped(k, d, u);
    Grouped(k + 1, d, u);
    KeepsBelow((k * d) as real, n as real, u, a);
    KeepsAbove((n + 1) as real, ((k + 1) * d) as real, u, a);
  }

  lemma KeepsBelow(x: real, y: real, u: real, a: real)
    requires u > 0.0 && x <= y && y * u <= a
    ensures x * u <= a
  {
    RealOrder(x, y, u);
  }

  lemma KeepsAbove(x: real, y: real, u: real, a: real)
    requires u > 0.0 && x <= y && a < x * u
    ensures a < y * u
  {
    RealOrder(x, y, u);
  }

  lemma Grouped(k: nat, d: nat, u: real)
    ensures k as real * (d as real * u) == (k * d) as real * u
  {
  }

  lemma DecimalLinear(w: nat, q: int)
    ensures DecimalValue(w, q) == w as real * DecimalValue(1, q)
    ensures DecimalValue(1, q) > 0.0
  {
    hide DecimalValue, Two, Pow;
    if q >= 0 {
      DecimalUp(w, q);
      DecimalUp(1, q);
      ByUnit(w, Pow(5, q) as real, Two(q + 1075));
    } else {
      DecimalDown(w, -q);
      DecimalDown(1, -q);
      ByUnit(w, 1.0 / Pow(5, -q) as real, Two(1075 + q));
    }
  }

  lemma ByUnit(w: nat, f: real, t: real)
    requires f > 0.0 && t > 0.0
    ensures w as real * f * t == w as real * (1.0 * f * t) && 1.0 * f * t > 0.0
  {
  }

  /** One unit more is less than ten times as much. */
  lemma NextTenfold(m: nat, q: int)
    requires m > 0
    ensures 0.0 < DecimalValue(m + 1, q) < 10.0 * DecimalValue(m, q)
  {
    hide DecimalValue;
    DecimalLinear(m, q);
    DecimalLinear(m + 1, q);
    RealOrder((m + 1) as real, 10.0 * m as real, DecimalValue(1, q));
  }

  /** A cut exponent makes the number read at least ten times too large or too small. */
  lemma CutTenfold(l: Layout)
    requires WellFormed(l) && !ExactExponent(l)
    ensures 10.0 * AsRead(l) <= Denoted(l) || 10.0 * Denoted(l) <= AsRead(l)
  {
    hide DecimalValue, Value, ExactExponent;
    ExactPlace(l);
    var n, x, y := Value(AllDigitsOf(l)), LastPlace(l), ParsedPlace(l);
    if x < y {
      Tenfold(n, x, y);
    } else {
      Tenfold(n, y, x);
    }
  }

  lemma Tenfold(n: nat, x: int, y: int)
    requires x < y
    ensures 10.0 * DecimalValue(n, x) <= DecimalValue(n, y)
  {
    hide DecimalValue, Pow;
    var p := Pow(10, y - x);
    AppendZeros(n, x, y - x);
    PowMonotone(10, 1, y - x);
    TenOnce();
    MulMonotone(n, n, 10, p);
    DecimalLinear(n, x);
    DecimalLinear(n * p, x);
    RealOrder((10 * n) as real, (n * p) as real, DecimalValue(1, x));
  }

  lemma TenOnce()
    ensures Pow(10, 1) == 10
  {
  }

  /** The significand read is zero exactly for a literal of zeros. */
  lemma ZeroDigits(l: Layout, a: Parsed)
    requires WellFormed(l) && Brackets(l, a)
    ensures a.mantissa == 0 <==> Value(AllDigitsOf(l)) == 0
  {
    hide Value, AllDigitsOf;
    if a.tooManyDigits {
      var all, k := AllDigitsOf(l), a.exponent - ParsedPlace(l);
      assert all == all[..|all| - k] + all[|all| - k..];
      NonzeroHead(all[..|all| - k], all[|all| - k..]);
    }
  }

  lemma NonzeroHead(s: seq<Byte>, t: seq<Byte>)
    requires AllDigits(s) && AllDigits(t) && Value(s) > 0
    ensures Value(s + t) > 0
  {
    hide Value, Pow;
    ValueConcat(s, t);
    MulMonotone(1, Value(s), 1, Pow(10, |t|));
  }

  /** The parser's result brackets the literal's value if and only if the exponent is not cut, or all digits are zero. */
  lemma ParsedBrackets(l: Layout, a: Parsed)
    requires WellFormed(l) && Brackets(l, a)
    ensures DecimalValue(a.mantissa, a.exponent) <= Denoted(l) < DecimalValue(a.mantissa + 1, a.exponent)
      <==> ExactExponent(l) || Value(AllDigitsOf(l)) == 0
  {
    hide DecimalValue, Value, Brackets, ExactExponent;
    ReadBrackets(l, a);
    ExactPlace(l);
    if Value(AllDigitsOf(l)) == 0 {
      ZeroDecimal(LastPlace(l));
      ZeroDecimal(ParsedPlace(l));
    } else if !ExactExponent(l) {
      ZeroDigits(l, a);
      NextTenfold(a.mantissa, a.exponent);
      CutTenfold(l);
    }
  }

  /** One unit of a 19-digit significand is less than half the gap above the next double. */
  lemma NearNext(w: nat, q: int, b: nat, x: real)
    requires w >= MINIMAL_NINETEEN_DIGIT_INTEGER
    requires DecimalValue(w, q) < (2 * V(b + 1)) as real && x < DecimalValue(w + 1, q)
    ensures x < Mid(b + 1) as real
  {
    hide V, Mid, Sig, Exp, Ulp, DecimalValue;
    var u, c := DecimalValue(1, q), b + 1;
    DecimalLinear(w, q);
    DecimalLinear(w + 1, q);
    ClosedForm(c);
    MidClosedForm(c);
    SigBound(c);
    Associate(2, Sig(c), Ulp(c));
    Distribute(2 * Sig(c), 1, Ulp(c));
    UnitBelowUlp(w, u, 2 * Sig(c), Ulp(c));
  }

  lemma SigBound(b: nat)
    ensures Sig(b) < 0x20_0000_0000_0000
  {
  }

  lemma UnitBelowUlp(w: nat, u: real, s: nat, ulp: nat)
    requires w >= MINIMAL_NINETEEN_DIGIT_INTEGER && s < 0x40_0000_0000_0000 && u > 0.0 && w as real * u < (s * ulp) as real
    ensures u < ulp as real && (w + 1) as real * u < (s * ulp + ulp) as real
  {
    RealUnits(w, ulp, ulp as real);
    RealOrder(ulp as real, u, w as real);
    MulMonotone(s, w, ulp, ulp);
  }

  /** Below half of the least double: what rounds to zero. */
  predicate Negligible(x: real) {
    x <= Mid(0) as real
  }

  /** From the halfway point above the largest double on: what rounds to infinity. */
  predicate Huge(x: real) {
    x >= Mid(INFINITY - 1) as real
  }

  lemma NegligibleRounds(x: real)
    ensures Negligible(x) <==> RoundsTo(x, 0)
  {
    hide Mid;
  }

  lemma HugeRounds(x: real)
    ensures Huge(x) <==> RoundsTo(x, INFINITY)
  {
    hide Mid;
  }

  /** The number denoted and the one read are both negligible, as with no digit but zeros, or both huge. */
  predicate BothOut(l: Layout)
    requires WellFormed(l)
  {
    (Negligible(AsRead(l)) && Negligible(Denoted(l))) || (Huge(AsRead(l)) && Huge(Denoted(l)))
  }

  lemma UlpDoubles(i: nat)
    ensures Ulp(i + 1) <= 2 * Ulp(i)
  {
    UlpIsPower(i);
    UlpIsPower(i + 1);
    ExpNext(i);
    PowMonotone(2, Exp(i + 1), Exp(i) + 1);
  }

  lemma ExpNext(i: nat)
    ensures Exp(i + 1) <= Exp(i) + 1
  {
  }

  /** Neighbouring halfway points are less than a factor of ten apart. */
  lemma MidsClose(i: nat)
    ensures Mid(i + 1) < 10 * Mid(i)
  {
    hide Ulp;
    UlpDoubles(i);
    assert V(i + 2) == V(i + 1) + Ulp(i + 1) && V(i + 1) == V(i) + Ulp(i);
  }

  /** Numbers a factor of ten apart do not round to the same double other than zero and infinity. */
  lemma TenApart(x: real, y: real, i: nat)
    requires 10.0 * x <= y && RoundsTo(x, i) && RoundsTo(y, i)
    ensures i == 0 || i == INFINITY
  {
    hide Mid;
    if 0 < i < INFINITY {
      MidsClose(i - 1);
    }
  }

  /**
   * What is read is rounded correctly for the literal if and only if the
   * exponent is not cut, or both numbers are out of range on the same side.
   */
  lemma RightForDenoted(l: Layout, i: nat)
    requires WellFormed(l) && RoundsTo(AsRead(l), i)
    ensures RoundsTo(Denoted(l), i) <==> ExactExponent(l) || BothOut(l)
  {
    hide RoundsTo, Negligible, Huge, DecimalValue, Value, ExactExponent;
    var x, y := AsRead(l), Denoted(l);
    NegligibleRounds(x);
    NegligibleRounds(y);
    HugeRounds(x);
    HugeRounds(y);
    ExactPlace(l);
    if BothOut(l) {
      RoundingUnique(x, i, if Negligible(x) && Negligible(y) then 0 else INFINITY);
    } else if !ExactExponent(l) && RoundsTo(y, i) {
      CutTenfold(l);
      if 10.0 * x <= y {
        TenApart(x, y, i);
      } else {
        TenApart(y, x, i);
      }
    }
  }

  /** With fewer than 2^27 digits, a literal whose exponent is cut is out of range by the exponent written and by the one read. */
  lemma FarOut(l: Layout)
    requires WellFormed(l) && !ExactExponent(l) && |AllDigitsOf(l)| < 0x800_0000
    ensures BothOut(l)
  {
    hide Value, ExpNumber, DecimalValue, RoundsTo, Pow, Negligible, Huge;
    var all, n := AllDigitsOf(l), Value(AllDigitsOf(l));
    ExpNumberExact(l.expDigits);
    ValueBelow(all);
    NegligibleRounds(AsRead(l));
    NegligibleRounds(Denoted(l));
    HugeRounds(AsRead(l));
    HugeRounds(Denoted(l));
    if l.expNegative {
      TinyDecimal(n, |all|, LastPlace(l));
      TinyDecimal(n, |all|, ParsedPlace(l));
    } else if n > 0 {
      Overflows(LastPlace(l), n);
      Overflows(ParsedPlace(l), n);
    } else {
      ZeroRounds(LastPlace(l));
      ZeroRounds(ParsedPlace(l));
    }
  }

  lemma TinyDecimal(n: nat, length: nat, x: int)
    requires n < Pow(10, length) && x <= 0 - length - 343
    ensures RoundsTo(DecimalValue(n, x), 0)
  {
    hide Pow, V, Mid, Times;
    SmallBound(343);
    PowAdd(10, length, 343);
    PowMonotone(10, length + 343, -x);
    MulLess(n, Pow(10, length), Pow(2, 1075), Pow(2, 1075));
    MulMonotone(Pow(10, length), Pow(10, length), Pow(2, 1075), Pow(10, 343));
    TimesPow(n, 2, 1075);
    SmallDouble(0);
    Ratio(1, n * Pow(2, 1075), Pow(10, -x));
  }

  /**
   * The conversion of a parsed number to the nearest double: exact significands
   * directly, 19 digits of a longer one when both ends of the bracket agree, and
   * otherwise the slow path on all digits. Infinity, and a zero for other digits
   * than zeros, are reported as out of range.
   */
  method FromParsed(pns: Parsed, ghost l: Layout) returns (am: AdjustedMantissa, outOfRange: bool)
    requires WellFormed(l) && Brackets(l, pns)
    requires pns.intPart == l.intPart && pns.fraction == l.fraction
    requires pns.tooManyDigits <==> |Strip(AllDigitsOf(l))| > 19
    ensures fresh(am) && am.Final() && RoundsTo(AsRead(l), am.Word())
    ensures RoundsTo(Denoted(l), am.Word()) <==> ExactExponent(l) || BothOut(l)
    ensures outOfRange <==> am.Word() == INFINITY || (am.Word() == 0 && Value(AllDigitsOf(l)) != 0)
  {
    hide Pow, RoundsTo, DecimalValue, V, Mid, Chop, Brackets, AsRead, Denoted, BothOut, ExactExponent, Strip, Value, Cut, DigitCount;
    ReadBrackets(l, pns);
    MantissaFits(l, pns);
    am := ComputeFloat(pns.exponent, pns.mantissa);
    if pns.tooManyDigits {
      var amPlusOne := ComputeFloat(pns.exponent, pns.mantissa + 1);
      var equal := am.mantissa == amPlusOne.mantissa && am.power2 == amPlusOne.power2;
      ghost var low, high := DecimalValue(pns.mantissa, pns.exponent), DecimalValue(pns.mantissa + 1, pns.exponent);
      if equal {
        RoundingConvex(low, AsRead(l), high, am.Word());
      } else {
        DecimalLess(pns.mantissa, pns.mantissa + 1, pns.exponent);
        BothInfinite(low, high, am, amPlusOne);
        am := LongWay(pns, l, am.Word());
      }
    }
    RightForDenoted(l, am.Word());
    ZeroDigits(l, pns);
    FieldsOfWord(am);
    outOfRange := (pns.mantissa != 0 && am.mantissa == 0 && am.power2 == 0) || am.power2 == 0x7FF;
  }

  lemma FieldsOfWord(am: AdjustedMantissa)
    requires am.Final()
    ensures am.Word() == 0 <==> am.mantissa == 0 && am.power2 == 0
    ensures am.Word() == INFINITY <==> am.power2 == 0x7FF
  {
  }

  /** Results that differ are not both infinite. */
  lemma BothInfinite(x: real, y: real, a: AdjustedMantissa, b: AdjustedMantissa)
    requires a.Final() && b.Final() && x <= y && RoundsTo(x, a.Word()) && RoundsTo(y, b.Word())
    requires !(a.mantissa == b.mantissa && a.power2 == b.power2)
    ensures a.Word() < INFINITY
  {
    hide Mid, RoundsUpTo;
    if a.Word() == INFINITY {
      StaysInfinite(x, y);
      RoundingUnique(y, INFINITY, b.Word());
    }
  }

  lemma StaysInfinite(x: real, y: real)
    requires RoundsTo(x, INFINITY) && x <= y
    ensures RoundsTo(y, INFINITY)
  {
    hide Mid;
  }

  lemma MantissaFits(l: Layout, a: Parsed)
    requires WellFormed(l) && Brackets(l, a)
    requires a.tooManyDigits <==> |Strip(AllDigitsOf(l))| > 19
    ensures a.mantissa < 10 * MINIMAL_NINETEEN_DIGIT_INTEGER
    ensures a.tooManyDigits ==> a.mantissa >= MINIMAL_NINETEEN_DIGIT_INTEGER
  {
    hide Pow, Value;
    if !a.tooManyDigits {
      StripValue(AllDigitsOf(l));
      ValueBelow(Strip(AllDigitsOf(l)));
      PowMonotone(10, |Strip(AllDigitsOf(l))|, 19);
      PowersOfTen(19);
    }
  }

  /** A number that rounds to a finite double lies above a finite one only. */
  lemma FiniteBelow(a: real, i: nat, b: nat)
    requires RoundsTo(a, i) && i < INFINITY && (2 * V(b)) as real <= a
    ensures b < INFINITY
  {
    hide V, Mid;
    if b >= INFINITY {
      MidBelow(i, b);
    }
  }

  /** When the bracket is not decisive, all digits are compared exactly. */
  method LongWay(pns: Parsed, ghost l: Layout, ghost i: nat) returns (am: AdjustedMantissa)
    requires WellFormed(l) && Brackets(l, pns) && -342 <= pns.exponent <= 308 && pns.tooManyDigits
    requires pns.intPart == l.intPart && pns.fraction == l.fraction
    requires |Strip(AllDigitsOf(l))| > 19
    requires RoundsTo(DecimalValue(pns.mantissa, pns.exponent), i) && i < INFINITY
    ensures fresh(am) && am.Final() && RoundsTo(AsRead(l), am.Word())
  {
    hide Pow, RoundsTo, DecimalValue, V, Mid, Chop, Strip, Value, Cut, DigitCount;
    ReadBrackets(l, pns);
    MantissaFits(l, pns);
    LeadingPosition(l, pns);
    ghost var all, w := AllDigitsOf(l), Strip(AllDigitsOf(l));
    StripValue(all);
    am := ComputeError(pns.exponent, pns.mantissa);
    ghost var b := Chop(am.mantissa, am.power2 - INVALID_AM_BIAS);
    FiniteBelow(DecimalValue(pns.mantissa, pns.exponent), i, b);
    NearNext(pns.mantissa, pns.exponent, b, AsRead(l));
    am := DigitComp(pns.intPart, pns.fraction, pns.mantissa, pns.exponent, am, w, ParsedPlace(l));
  }

  /** The number that is written, in units of 2^-1075. */
  function Written(n: NumberText.Numeral): real
    requires n.Valid()
  {
    DecimalValue(Value(n.Digits()), n.Place())
  }

  /** What is read from the text of a number is right for the number, with any but the largest exponents. */
  lemma NumeralRead(n: NumberText.Numeral, o: Options, word: nat)
    requires n.Valid() && WellFormed(n.Parts(o.point)) && RoundsTo(AsRead(n.Parts(o.point)), word)
    ensures Denoted(n.Parts(o.point)) == Written(n)
    ensures n.Moderate() ==> RoundsTo(Written(n), word)
  {
    hide RoundsTo, DecimalValue, Value, AsRead, BothOut;
    var l := n.Parts(o.point);
    assert AllDigitsOf(l) == n.Digits() && l.expDigits == n.ExponentDigits();
    RightForDenoted(l, word);
    if n.Moderate() && !ExactExponent(l) {
      FarOut(l);
    }
  }

  /** What a conversion yields: sign and magnitude, the end of the number, and whether it is out of range. */
  datatype Converted = Converted(negative: bool, am: AdjustedMantissa, end: nat, outOfRange: bool)

  /** From the bytes to the double, with its sign: a number string is refused, or the number read is correctly rounded,
      and with it the number written, unless the exponent is cut and this matters. */
  method FromChars(s: seq<Byte>, o: Options) returns (r: Result<Converted, Outcome>)
    requires s != [] && !IsDigit(o.point)
    ensures LayoutOf(s, o).Err? ==> r == Err(LayoutOf(s, o).error)
    ensures LayoutOf(s, o).Ok? ==>
      var l := LayoutOf(s, o).value;
      && r.Ok? && r.value.negative == l.negative && r.value.end == l.end && r.value.am.Final()
      && var word := r.value.am.Word();
      && RoundsTo(AsRead(l), word)
      && (RoundsTo(Denoted(l), word) <==> ExactExponent(l) || BothOut(l))
      && (r.value.outOfRange <==> word == INFINITY || (word == 0 && Value(AllDigitsOf(l)) != 0))
    ensures forall n: NumberText.Numeral :: n.Valid() && n.Takes(o) && s == n.Text(o.point) ==>
      && r.Ok? && r.value.negative == n.sign.Minus? && r.value.end == |s|
      && (n.Moderate() ==> RoundsTo(Written(n), r.value.am.Word()))
  {
    hide LayoutOf, Brackets, Denoted, AsRead, BothOut, ExactExponent, RoundsTo, Strip, Value, DecimalValue;
    hide NumberText.Numeral.Text, NumberText.Numeral.Takes, Written;
    forall n: NumberText.Numeral | n.Valid() && n.Takes(o) && s == n.Text(o.point)
      ensures LayoutOf(s, o) == Ok(n.Parts(o.point))
    {
      NumberText.TextParts(n, o);
    }
    var parsed := ParseNumberString(s, o);
    if parsed.Err? {
      return Err(parsed.error);
    }
    ghost var l := LayoutOf(s, o).value;
    assert WellFormed(l);
    var am, outOfRange := FromParsed(parsed.value, l);
    forall n: NumberText.Numeral | n.Valid() && n.Takes(o) && s == n.Text(o.point)
      ensures n.Moderate() ==> RoundsTo(Written(n), am.Word())
    {
      NumeralRead(n, o, am.Word());
    }
    r := Ok(Converted(parsed.value.negative, am, parsed.value.lastmatch, outOfRange));
  }
}
