/**
 * Cutting a decimal number at 769 significant digits: no point halfway between
 * two doubles lies strictly between two adjacent 769-digit numbers, so any
 * sticky digit in place of the tail rounds the same way.
 */
module Halfway {
  import opened Powers
  import opened Binary64

  /** 5^31 < 2^72 and 5^28 < 2^66 give 5^307 < 2^714. */
  lemma FivesBelowTwos()
    ensures Pow(5, 307) < Pow(2, 714)
  {
    hide Pow;
    SmallFives();
    PowMultiply(5, 31, 9);
    PowMultiply(2, 72, 9);
    PowBase(Pow(5, 31), Pow(2, 72), 9);
    PowAdd(5, 279, 28);
    PowAdd(2, 648, 66);
    MulLess(Pow(5, 28), Pow(2, 66), Pow(5, 279), Pow(2, 648));
  }

  lemma SmallFives()
    ensures Pow(5, 31) < Pow(2, 72) && Pow(5, 28) < Pow(2, 66)
  {
    PowMultiply(5, 4, 7);
    assert Pow(5, 4) == 625 && Pow(5, 3) == 125;
    assert Pow(625, 7) == 37252902984619140625;
    PowAdd(5, 28, 3);
    PowMultiply(2, 6, 11);
    PowMultiply(2, 6, 12);
    assert Pow(2, 6) == 64;
    assert Pow(64, 11) == 73786976294838206464;
  }

  /** The key bound: a 54-bit numerator over 2^1075 has fewer than 769 digits. */
  lemma KeyBound()
    ensures Pow(2, 54) * Pow(5, 1075) < Pow(10, 768)
  {
    hide Pow;
    FivesBelowTwos();
    PowAdd(5, 768, 307);
    PowAdd(2, 54, 714);
    TenIsTwoFive(768);
    var f := Pow(5, 768);
    Rearrange(Pow(2, 54), f, Pow(5, 307));
    MulLess(Pow(2, 54) * Pow(5, 307), Pow(2, 768), f, f) by {
      Scale(Pow(2, 54), Pow(5, 307), Pow(2, 714));
    }
  }

  lemma Rearrange(a: nat, f: nat, b: nat)
    ensures a * (f * b) == (a * b) * f
  {
  }

  lemma Scale(a: nat, x: nat, y: nat)
    requires a > 0 && x < y
    ensures a * x < a * y
  {
    MulLess(x, y, a, a);
  }

  /** Doubles and halfway points are 54-bit numbers times a power of two. */
  predicate Dyadic(v: nat, t: nat, e: nat) {
    t < Pow(2, 54) && e <= 2046 && v == t * Pow(2, e)
  }

  lemma HalfwayShape(b: nat)
    requires b <= INFINITY
    ensures Dyadic(Mid(b), 2 * Sig(b) + 1, Exp(b)) && Dyadic(2 * V(b), 2 * Sig(b), Exp(b))
  {
    hide V, Mid, Ulp;
    MidClosedForm(b);
    ClosedForm(b);
    UlpIsPower(b);
    FiftyFour();
    Associate(2, Sig(b), Ulp(b));
  }

  lemma FiftyFour()
    ensures Pow(2, 54) == 0x40_0000_0000_0000
  {
    PowMultiply(2, 6, 9);
    assert Pow(2, 6) == 64;
    assert Pow(64, 9) == 0x40_0000_0000_0000;
  }

  /** With k decimals: either the halfway point times 10^k is whole, or it is below 10^768. */
  lemma NotBetweenFractions(t: nat, e: nat, n: nat, k: nat)
    requires t < Pow(2, 54) && n >= Pow(10, 768)
    requires n * Pow(2, 1075) < (t * Pow(2, e)) * Pow(10, k)
    ensures (n + 1) * Pow(2, 1075) <= (t * Pow(2, e)) * Pow(10, k)
  {
    hide Pow;
    var unit, mid := Pow(2, 1075), (t * Pow(2, e)) * Pow(10, k);
    TenIsTwoFive(k);
    PowAdd(2, e, k);
    Shuffle(t, Pow(2, e), Pow(2, k), Pow(5, k));
    assert mid == (t * Pow(5, k)) * Pow(2, e + k);
    if e + k >= 1075 {
      PowAdd(2, e + k - 1075, 1075);
      Associate(t * Pow(5, k), Pow(2, e + k - 1075), unit);
      var whole := (t * Pow(5, k)) * Pow(2, e + k - 1075);
      CancelOrder(n, whole, unit);
      MulMonotone(n + 1, whole, unit, unit);
    } else {
      PowMonotone(2, e + k, 1075);
      PowMonotone(5, k, 1075);
      MulMonotone(t, Pow(2, 54), Pow(5, k), Pow(5, 1075));
      KeyBound();
      MulMonotone(t * Pow(5, k), n, Pow(2, e + k), unit);
    }
  }

  lemma Shuffle(t: nat, a: nat, b: nat, c: nat)
    ensures (t * a) * (b * c) == (t * c) * (a * b)
  {
  }

  /** Numbers of 10^768 or more exceed every halfway point. */
  lemma AboveAll(t: nat, e: nat)
    requires t < Pow(2, 54) && e <= 2046
    ensures t * Pow(2, e) < Pow(10, 768) * Pow(2, 1075)
  {
    hide Pow;
    PowAdd(2, 54, e);
    PowMonotone(2, 54 + e, 2101);
    PowAdd(2, 1026, 1075);
    EightBelowTen(342);
    PowMonotone(10, 342, 768);
    MulLess(t, Pow(2, 54), Pow(2, e), Pow(2, e));
    MulMonotone(Pow(2, 1026), Pow(10, 768), Pow(2, 1075), Pow(2, 1075));
  }

  lemma EightBelowTen(n: nat)
    ensures Pow(2, 3 * n) <= Pow(10, n)
  {
    PowMultiply(2, 3, n);
    assert Pow(2, 3) == 8;
    PowBase(8, 10, n);
  }

  /** No such number lies strictly between n * 10^s and (n + 1) * 10^s, when n has 769 digits. */
  lemma NoneBetween(v: nat, t: nat, e: nat, n: nat, s: int)
    requires Dyadic(v, t, e) && n >= Pow(10, 768)
    ensures DecimalValue(n, s) < v as real ==> DecimalValue(n + 1, s) <= v as real
  {
    hide Pow, Times;
    if s < 0 {
      var d := Pow(10, -s);
      TimesPow(n, 2, 1075);
      TimesPow(n + 1, 2, 1075);
      Ratio(v, Times(n, 2, 1075), d);
      Ratio(v, Times(n + 1, 2, 1075), d);
      if n * Pow(2, 1075) < v * d {
        NotBetweenFractions(t, e, n, -s);
      }
    } else {
      TimesGrows(n, 10, s);
      var m := Times(n, 10, s);
      TimesPow(m, 2, 1075);
      AboveAll(t, e);
      MulMonotone(Pow(10, 768), m, Pow(2, 1075), Pow(2, 1075));
    }
  }

  lemma ScaledCommon(n: nat, d: nat, c: nat)
    requires d > 0 && c > 0
    ensures c * d > 0 && Scaled(n * c, c * d) == Scaled(n, d)
  {
    hide Pow, Times;
    var p := Pow(2, 1075);
    TimesPow(n, 2, 1075);
    TimesPow(n * c, 2, 1075);
    MulMonotone(1, c, 1, d);
    SameRatio(n * p, d, c);
    assert (n * c) * p == c * (n * p);
  }

  lemma SameRatio(a: nat, d: nat, c: nat)
    requires d > 0 && c > 0 && c * d > 0
    ensures (c * a) as real / (c * d) as real == a as real / d as real
  {
    var x, y := (c * a) as real / (c * d) as real, a as real / d as real;
    assert (c * a) as real == c as real * a as real && (c * d) as real == c as real * d as real;
    assert y * d as real == a as real;
    assert y * (c as real * d as real) == c as real * (y * d as real);
  }

  /** Moving the decimal point: appending a zero digit changes nothing. */
  lemma AppendZero(n: nat, s: int)
    ensures DecimalValue(10 * n, s - 1) == DecimalValue(n, s)
  {
    hide Scaled;
    if s <= 0 {
      ScaledCommon(n, Pow(10, -s), 10);
      assert Pow(10, 1 - s) == 10 * Pow(10, -s);
      assert Times(n, 10, 0) == n && Pow(10, 0) == 1;
    }
  }

  lemma {:induction false} TimesLess(m: nat, n: nat, b: nat, k: nat)
    requires m < n && b > 0
    ensures Times(m, b, k) < Times(n, b, k)
    decreases k
  {
    if k > 0 {
      MulLess(m, n, b, b);
      TimesLess(m * b, n * b, b, k - 1);
    }
  }

  lemma ScaledLess(m: nat, n: nat, d: nat)
    requires m < n && d > 0
    ensures Scaled(m, d) < Scaled(n, d)
  {
    hide Times;
    TimesLess(m, n, 2, 1075);
    RatioLess(Times(m, 2, 1075), Times(n, 2, 1075), d);
  }

  lemma RatioLess(a: nat, b: nat, d: nat)
    requires a < b && d > 0
    ensures a as real / d as real < b as real / d as real
  {
  }

  lemma DecimalLess(m: nat, n: nat, s: int)
    requires m < n
    ensures DecimalValue(m, s) < DecimalValue(n, s)
  {
    hide Scaled, Times, Pow;
    if s >= 0 {
      TimesLess(m, n, 10, s);
      ScaledLess(Times(m, 10, s), Times(n, 10, s), 1);
    } else {
      ScaledLess(m, n, Pow(10, -s));
    }
  }

  /** Every number strictly inside the gap is on the same side of every halfway point. */
  lemma SameSide(b: nat, n: nat, s: int, x: real)
    requires b <= INFINITY && n >= Pow(10, 768) && DecimalValue(n, s) < x < DecimalValue(n + 1, s)
    ensures Mid(b) as real != x && (Mid(b) as real < x <==> Mid(b) as real <= DecimalValue(n, s))
  {
    hide DecimalValue, Mid, Pow, Sig, Exp;
    HalfwayShape(b);
    NoneBetween(Mid(b), 2 * Sig(b) + 1, Exp(b), n, s);
  }

  /** ... and of every double. */
  lemma SameSideOfDouble(b: nat, n: nat, s: int, x: real)
    requires b <= INFINITY && n >= Pow(10, 768) && DecimalValue(n, s) < x < DecimalValue(n + 1, s)
    ensures (2 * V(b)) as real <= x <==> (2 * V(b)) as real <= DecimalValue(n, s)
  {
    hide DecimalValue, V, Pow, Sig, Exp;
    HalfwayShape(b);
    NoneBetween(2 * V(b), 2 * Sig(b), Exp(b), n, s);
  }

  lemma SameRounding(n: nat, s: int, x: real, y: real, i: nat, top: nat)
    requires n >= Pow(10, 768) && top <= INFINITY
    requires DecimalValue(n, s) < x < DecimalValue(n + 1, s) && DecimalValue(n, s) < y < DecimalValue(n + 1, s)
    ensures RoundsUpTo(x, i, top) <==> RoundsUpTo(y, i, top)
  {
    hide DecimalValue, Mid, Pow;
    if i <= top {
      if i > 0 {
        SameSide(i - 1, n, s, x);
        SameSide(i - 1, n, s, y);
      }
      if i < top {
        SameSide(i, n, s, x);
        SameSide(i, n, s, y);
      }
    }
  }

  /** A sticky 1 in place of the digits cut off lies in the same gap. */
  lemma StickyInside(n: nat, s: int)
    ensures DecimalValue(n, s) < DecimalValue(10 * n + 1, s - 1) < DecimalValue(n + 1, s)
  {
    hide DecimalValue;
    AppendZero(n, s);
    AppendZero(n + 1, s);
    DecimalLess(10 * n, 10 * n + 1, s - 1);
    DecimalLess(10 * n + 1, 10 * (n + 1), s - 1);
  }

  /** It rounds to the same double. */
  lemma StickyDigit(n: nat, s: int, x: real, i: nat)
    requires n >= Pow(10, 768) && DecimalValue(n, s) < x < DecimalValue(n + 1, s)
    ensures RoundsTo(x, i) <==> RoundsTo(DecimalValue(10 * n + 1, s - 1), i)
  {
    hide DecimalValue, Pow, RoundsUpTo;
    StickyInside(n, s);
    SameRounding(n, s, x, DecimalValue(10 * n + 1, s - 1), i, INFINITY);
  }

  /** It lies between the same double and the same halfway point above. */
  lemma StickyBetween(n: nat, s: int, x: real, b: nat)
    requires b < INFINITY && n >= Pow(10, 768) && DecimalValue(n, s) < x < DecimalValue(n + 1, s)
    requires (2 * V(b)) as real <= x < Mid(b + 1) as real
    ensures (2 * V(b)) as real <= DecimalValue(10 * n + 1, s - 1) < Mid(b + 1) as real
  {
    hide DecimalValue, Pow, V, Mid;
    StickyInside(n, s);
    SameSideOfDouble(b, n, s, x);
    SameSide(b + 1, n, s, x);
    SameSide(b + 1, n, s, DecimalValue(10 * n + 1, s - 1));
  }
}
