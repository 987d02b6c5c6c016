/**
 * The fast path of the decimal conversion: at most two 64x64-bit products with
 * a normalized power of five decide the double, for every decimal exponent.
 */
module FastPath {
  import opened Powers
  import opened Bits
  import opened Limbs
  import opened Binary64
  import opened Rounding
  import opened PowersOfFive
  import opened Product

  /** Counting leading zeros by halving the word, where the compiler has no instruction for it. */
  method CountLeadingZeroes(x0: Limb) returns (n: nat)
    ensures n == if x0 == 0 then 64 else LeadingZeros(x0)
  {
    hide Pow, BitLen;
    if x0 == 0 {
      return 64;
    }
    SmallPowers();
    var x;
    n, x := SkipZeroBits(x0, 0, x0, 32, 0x1_0000_0000, 0x1_0000_0000, 1);
    n, x := SkipZeroBits(x0, n, x, 16, 0x1_0000, 0x1_0000_0000_0000, 0x1_0000_0000);
    n, x := SkipZeroBits(x0, n, x, 8, 0x100, 0x100_0000_0000_0000, 0x1_0000_0000_0000);
    n, x := SkipZeroBits(x0, n, x, 4, 0x10, 0x1000_0000_0000_0000, 0x100_0000_0000_0000);
    n, x := SkipZeroBits(x0, n, x, 2, 4, 0x4000_0000_0000_0000, 0x1000_0000_0000_0000);
    n, x := SkipZeroBits(x0, n, x, 1, 2, 0x8000_0000_0000_0000, 0x4000_0000_0000_0000);
    ZerosAre(x0, n);
  }

  /** One halving step: when the top `k` bits are zero, shifts by `k` and counts them. */
  method SkipZeroBits(ghost x0: Limb, n0: nat, x: Limb, k: nat, factor: nat, top: nat, ghost low: nat) returns (n: nat, y: Limb)
    requires x == x0 * Pow(2, n0) && factor == Pow(2, k) > 0
    requires top > 0 && factor * top == 0x1_0000_0000_0000_0000 && low * factor == top && x >= low
    ensures y == x0 * Pow(2, n) && y >= top
  {
    hide Pow;
    n, y := n0, x;
    BelowTop(x, top);
    if x / top == 0 {
      ShiftMore(x0, n0, k);
      MulMonotone(low, x, factor, factor);
      MulMonotone(x + 1, top, factor, factor);
      Distribute(x, 1, factor);
      n, y := n0 + k, x * factor;
    }
  }

  lemma BelowTop(x: nat, top: nat)
    requires top > 0
    ensures x / top == 0 <==> x < top
  {
    DivMod(x, top);
  }

  lemma SmallPowers()
    ensures Pow(2, 0) == 1 && Pow(2, 1) == 2 && Pow(2, 2) == 4 && Pow(2, 4) == 0x10 && Pow(2, 8) == 0x100
    ensures Pow(2, 16) == 0x1_0000 && Pow(2, 32) == 0x1_0000_0000
  {
    PowMultiply(2, 16, 2);
    assert Pow(2, 16) == 0x1_0000;
    assert Pow(0x1_0000, 2) == 0x1_0000_0000;
  }

  lemma ShiftMore(x: nat, n: nat, k: nat)
    ensures x * Pow(2, n + k) == (x * Pow(2, n)) * Pow(2, k)
  {
    PowAdd(2, n, k);
    Associate(x, Pow(2, n), Pow(2, k));
  }

  lemma ZerosAre(x: Limb, n: nat)
    requires x != 0 && 0x8000_0000_0000_0000 <= x * Pow(2, n) < 0x1_0000_0000_0000_0000
    ensures n == LeadingZeros(x)
  {
    hide Pow;
    var k := LeadingZeros(x);
    Justify(x);
    if n < k {
      MoreShift(x, n, k);
    } else if k < n {
      MoreShift(x, k, n);
    }
  }

  lemma MoreShift(x: nat, n: nat, k: nat)
    requires n < k
    ensures 2 * (x * Pow(2, n)) <= x * Pow(2, k)
  {
    hide Pow;
    PowAdd(2, n, 1);
    PowMonotone(2, n + 1, k);
    SmallPowers();
    MulMonotone(x, x, Pow(2, n + 1), Pow(2, k));
    Associate(x, Pow(2, n), 2);
  }

  // ------------------------------------------------------------------ the number behind the product

  lemma DecimalUp(w: nat, q: nat)
    ensures DecimalValue(w, q) == w as real * (Pow(5, q) as real) * Two(q + 1075)
  {
    hide Pow, Times;
    TimesPow(w, 10, q);
    TimesPow(w * Pow(10, q), 2, 1075);
    TenIsTwoFive(q);
    PowAdd(2, q, 1075);
    Reassemble(w, Pow(5, q), Pow(2, q), Pow(2, 1075));
  }

  lemma Reassemble(w: nat, five: nat, two: nat, unit: nat)
    ensures (w * five) * (two * unit) == (w * (two * five)) * unit
  {
  }

  lemma DecimalDown(w: nat, k: nat)
    requires k > 0
    ensures DecimalValue(w, 0 - k) == w as real / Pow(5, k) as real * Two(1075 - k)
  {
    hide Pow, Times;
    TimesPow(w, 2, 1075);
    TenIsTwoFive(k);
    TwoAdd(1075 - k, k);
    Quotient(w as real, Pow(5, k) as real, Two(1075 - k), Pow(2, k) as real);
  }

  lemma Quotient(w: real, five: real, part: real, two: real)
    requires five > 0.0 && two > 0.0
    ensures w * (part * two) / (two * five) == w / five * part
  {
    assert w * (part * two) == (w / five * part) * (two * five) by {
      assert w == w / five * five;
      assert (w / five * part) * (two * five) == (w / five * five) * (part * two);
    }
  }

  lemma ScaleUp(w0: nat, p: nat, five: nat, top: nat, den: nat, t: real, e: real)
    requires den > 0 && top as real == t * den as real
    ensures ((w0 * p) * (five * top)) as real / den as real * e == w0 as real * (five as real) * (p as real * t * e)
  {
    Product4(w0, p, five, top);
    var x, y, z, d := w0 as real, p as real, five as real, den as real;
    MoveOut(x * y, z, t, d);
    DivideOut(x * y * (z * t), d);
    GatherFactors(x, y, z, t, e);
  }

  lemma MoveOut(x: real, z: real, t: real, d: real)
    ensures x * (z * (t * d)) == (x * (z * t)) * d
  {
  }

  lemma DivideOut(n: real, d: real)
    requires d > 0.0
    ensures n * d / d == n
  {
  }

  lemma GatherFactors(x: real, y: real, z: real, t: real, e: real)
    ensures x * y * (z * t) * e == x * z * (y * t * e)
  {
    var u := t * e;
    assert (z * t) * e == z * u;
    assert x * y * (z * t) * e == (x * y) * (z * u);
    assert (x * y) * (z * u) == (x * z) * (y * u);
  }

  lemma Product4(a: nat, b: nat, c: nat, d: nat)
    ensures ((a * b) * (c * d)) as real == (a as real * b as real) * (c as real * d as real)
  {
  }

  lemma ScaleDown(w0: nat, p: nat, half: nat, top: nat, five: nat, t: real, e: real)
    requires five > 0 && t == half as real * top as real
    ensures ((w0 * p) * (half * top)) as real / five as real * e == w0 as real / five as real * (p as real * t * e)
  {
    Product4(w0, p, half, top);
    var x, y, d := w0 as real, p as real, five as real;
    var z := x / d;
    MoveIn(x, z, d, y, t);
    DivideOut(z * (y * t), d);
    AssociateReal(z, y * t, e);
  }

  lemma MoveIn(x: real, z: real, d: real, y: real, t: real)
    requires x == z * d
    ensures (x * y) * t == (z * (y * t)) * d
  {
    var u := y * t;
    assert (x * y) * t == x * u;
  }

  lemma AssociateReal(x: real, y: real, z: real)
    ensures x * y * z == x * (y * z)
  {
  }

  /** The scaled product is the decimal number times a power of two. */
  lemma DecimalScaled(q: int, w0: nat, lz: nat, w: nat)
    requires w == w0 * Pow(2, lz) && -342 <= q <= 308
    ensures DecimalValue(w0, q) == (w * Num(q)) as real / Den(q) as real * Two(q + Log2Five(q) + 948 - lz)
  {
    hide DecimalValue, Two, Pow;
    if q >= 0 {
      ScaledUp(q, Log2Five(q), w0, lz);
    } else {
      ScaledDown(-q, -Log2Five(q), w0, lz);
    }
  }

  lemma ScaledUp(q: nat, l: nat, w0: nat, lz: nat)
    ensures DecimalValue(w0, q) == (w0 * Pow(2, lz) * (Pow(5, q) * TOP)) as real / Pow(2, l) as real * Two(q + l + 948 - lz)
  {
    hide DecimalValue, Two, Pow;
    var e := q + l + 948 - lz;
    TopTwo();
    DecimalUp(w0, q);
    TwoIs(lz);
    TwoIs(l);
    TwoAdd(127 - l, l);
    TwoAdd(lz, 127 - l);
    TwoAdd(lz + (127 - l), e);
    assert lz + (127 - l) + e == q + 1075;
    ScaleUp(w0, Pow(2, lz), Pow(5, q), TOP, Pow(2, l), Two(127 - l), Two(e));
  }

  lemma ScaledDown(k: nat, l: nat, w0: nat, lz: nat)
    requires k > 0
    ensures DecimalValue(w0, 0 - k) == (w0 * Pow(2, lz) * (Pow(2, l) * TOP)) as real / Pow(5, k) as real * Two(948 - k - l - lz)
  {
    hide DecimalValue, Two, Pow;
    var e := 948 - k - l - lz;
    TopTwo();
    DecimalDown(w0, k);
    TwoIs(lz);
    TwoIs(l);
    TwoAdd(l, 127);
    TwoAdd(lz, l + 127);
    TwoAdd(lz + (l + 127), e);
    assert lz + (l + 127) + e == 1075 - k;
    ScaleDown(w0, Pow(2, lz), Pow(2, l), TOP, Pow(5, k), Two(l + 127), Two(e));
  }

  lemma TopTwo()
    ensures Two(127) == TOP as real
  {
    TopIsPower();
    TwoIs(127);
  }

  function B10ToB2(q: int): int {
    (152170 + 65536) * q / 65536 + 63
  }

  lemma UnitScales(x: real, k: nat, unit: nat, u: real, e: real)
    requires e > 0.0 && unit as real == u
    ensures (k * unit) as real <= x <==> k as real * (u * e) <= x * e
    ensures (k * unit) as real == x <==> k as real * (u * e) == x * e
  {
    var y := (k * unit) as real;
    assert y == k as real * u;
    assert k as real * (u * e) == y * e;
    if y <= x {
      assert y * e <= x * e;
    } else {
      assert y * e > x * e;
    }
    if y < x {
      assert y * e < x * e;
    }
  }

  lemma UnitTwo(s: nat, unit: nat)
    requires Unit(s, unit)
    ensures unit as real == Two(s + 128)
  {
  }

  /** The leading bits of the product bracket the number, and say whether it is exactly their value. */
  lemma WindowOf(q: int, w: nat, n: nat, m: nat, s: nat, unit: nat, e: int, a: real)
    requires WholeSlots(q, w, n) && Unit(s, unit) && m == (if s == 9 then n else n / 2)
    requires a == (w * Num(q)) as real / Den(q) as real * Two(e)
    ensures m as real * Two(s + 128 + e) <= a < (m + 1) as real * Two(s + 128 + e)
    ensures a == m as real * Two(s + 128 + e) <==> OnPoint(q, w, m, unit)
  {
    hide Num, Den, Two;
    HalfSlots(n, m, s, unit, Den(q));
    UnitTwo(s, unit);
    TwoAdd(s + 128, e);
    FractionWindow(w * Num(q), Den(q), m, unit, Two(s + 128), Two(e));
  }

  lemma FractionWindow(num: nat, den: nat, m: nat, unit: nat, u: real, e: real)
    requires den > 0 && e > 0.0 && unit as real == u && (m * unit) * den <= num < ((m + 1) * unit) * den
    ensures var a := num as real / den as real * e;
      && m as real * (u * e) <= a < (m + 1) as real * (u * e)
      && (a == m as real * (u * e) <==> num == (m * unit) * den)
  {
    var x := num as real / den as real;
    Ratio(m * unit, num, den);
    Ratio((m + 1) * unit, num, den);
    UnitScales(x, m, unit, u, e);
    UnitScales(x, m + 1, unit, u, e);
  }

  lemma HalfSlots(n: nat, m: nat, s: nat, unit: nat, d: nat)
    requires Unit(s, unit) && m == if s == 9 then n else n / 2
    ensures (m * unit) * d <= (n * SLOT) * d && ((n + 1) * SLOT) * d <= ((m + 1) * unit) * d
  {
    MulMonotone(m * unit, n * SLOT, d, d);
    MulMonotone((n + 1) * SLOT, (m + 1) * unit, d, d);
  }

  /** The double with significand `sig` and exponent field `e + 1`, its successor and the point halfway. */
  lemma NormalDouble(e: nat, sig: nat)
    requires 0x10_0000_0000_0000 <= sig < 0x20_0000_0000_0000
    ensures var b, unit := e * 0x10_0000_0000_0000 + sig, Pow(2, e);
      && 2 * V(b) == 2 * (sig * unit) && Mid(b) == (2 * sig + 1) * unit && 2 * Mid(b) == 2 * V(b) + 2 * V(b + 1)
      && b % 2 == sig % 2
  {
    hide Pow, V, Ulp, Sig, Exp;
    var b := e * 0x10_0000_0000_0000 + sig;
    Fields(e, sig);
    UlpIsPower(b);
    ClosedForm(b);
    MidClosedForm(b);
    Even(e, sig);
  }

  /** Dropping the last bit of a 54-bit significand with the tie corrected rounds to nearest even. */
  lemma NormalRounds(m: nat, power2: nat, a: real)
    requires 0x20_0000_0000_0000 <= m < 0x40_0000_0000_0000 && power2 >= 1
    requires m as real * Two(power2 - 1) <= a < (m + 1) as real * Two(power2 - 1)
    ensures var n := if a == m as real * Two(power2 - 1) && m % 4 == 1 then m - 1 else m;
      RoundsTo(a, Clamp((power2 - 1) * 0x10_0000_0000_0000 + (n + n % 2) / 2))
  {
    hide *;
    var u, unit := Two(power2 - 1), Pow(2, power2 - 1);
    TwoIs(power2 - 1);
    RealUnits(m, unit, u);
    RealUnits(m + 1, unit, u);
    Distribute(m, 1, unit);
    UnitsRound(m, power2 - 1, a);
    BitGone(m, a == m as real * u && m % 4 == 1);
  }

  lemma UnitsRound(m: nat, e: nat, a: real)
    requires 0x20_0000_0000_0000 <= m < 0x40_0000_0000_0000
    requires (m * Pow(2, e)) as real <= a < (m * Pow(2, e) + Pow(2, e)) as real
    ensures var up := m % 2 == 1 && !(a == (m * Pow(2, e)) as real && m % 4 == 1);
      RoundsTo(a, Clamp(e * 0x10_0000_0000_0000 + if up then m / 2 + 1 else m / 2))
  {
    hide Pow, V, Mid, RoundsUpTo;
    var sig, unit := m / 2, Pow(2, e);
    var b := e * 0x10_0000_0000_0000 + sig;
    NormalDouble(e, sig);
    var up := m % 2 == 1 && !(a == (m * unit) as real && m % 4 == 1);
    HalfBit(m, sig, unit, a, 2 * V(b), 2 * V(b + 1), Mid(b), up);
    MidAbove(b + 1);
    RoundBetween(a, b, up, INFINITY);
  }

  lemma BitGone(m: nat, tie: bool)
    requires tie ==> m % 4 == 1
    ensures var n := if tie then m - 1 else m;
      (n + n % 2) / 2 == if m % 2 == 1 && !tie then m / 2 + 1 else m / 2
  {
  }

  lemma HalfBit(m: nat, sig: nat, unit: nat, a: real, low: nat, high: nat, mid: nat, up: bool)
    requires sig == m / 2 && (m * unit) as real <= a < (m * unit + unit) as real
    requires low == 2 * (sig * unit) && mid == (2 * sig + 1) * unit && 2 * mid == low + high
    requires up <==> m % 2 == 1 && !(a == (m * unit) as real && m % 4 == 1)
    ensures low as real <= a < high as real
    ensures up <==> mid as real < a || (mid as real == a && sig % 2 == 1)
  {
    Associate(2, sig, unit);
    Distribute(2 * sig, 1, unit);
    if m % 2 == 0 {
      assert m == 2 * sig;
    } else {
      assert m == 2 * sig + 1;
    }
  }

  /** In the subnormal range, dropping the last bit of the number of halves rounds to nearest when no tie is possible. */
  lemma SubnormalRounds(m: nat, a: real)
    requires m <= 0x20_0000_0000_0000 && m as real <= a < (m + 1) as real
    requires m % 2 == 1 ==> a != m as real
    ensures RoundsTo(a, (m + m % 2) / 2)
  {
    hide V, Mid, RoundsUpTo;
    var b := m / 2;
    SmallDouble(b);
    MidAbove(b + 1);
    RoundBetween(a, b, m % 2 == 1, INFINITY);
  }

  lemma SmallDouble(b: nat)
    requires b <= 0x10_0000_0000_0000
    ensures V(b) == b && V(b + 1) == b + 1 && Mid(b) == 2 * b + 1
  {
    hide V, Mid;
    FirstBinade(b);
    FirstBinade(b + 1);
    ClosedForm(b);
    ClosedForm(b + 1);
    MidIsSum(b);
  }

  /** A power of five above a word divides no word, so no number of this range is a whole number of halves that is odd. */
  lemma NeverWhole(q: int, w0: Limb, m: nat)
    requires -342 <= q <= -28 && w0 > 0 && m % 2 == 1
    ensures DecimalValue(w0, q) != m as real
  {
    hide Pow, DecimalValue, Two;
    var k := -q;
    if DecimalValue(w0, q) == m as real {
      DecimalDown(w0, k);
      TwoIs(1075 - k);
      Whole(w0, Pow(5, k), Pow(2, 1075 - k), m);
      OddPower(k);
      var y := OddFactor(Pow(5, k), m, w0, 1075 - k);
      FiveTwentyEight();
      PowMonotone(5, 28, k);
      NoSmallMultiple(Pow(5, k), y, w0);
    }
  }

  lemma Whole(w: nat, five: nat, two: nat, m: nat)
    requires five > 0 && w as real / five as real * two as real == m as real
    ensures five * m == w * two
  {
    var x := w as real / five as real;
    assert x * five as real == w as real;
    assert (x * two as real) * five as real == (x * five as real) * two as real;
    assert (m * five) as real == (w * two) as real;
  }

  lemma FiveTwentyEight()
    ensures Pow(5, 28) > 0x1_0000_0000_0000_0000
  {
    PowMultiply(5, 7, 4);
    assert Pow(5, 7) == 78125 && Pow(78125, 4) == 37252902984619140625;
  }

  lemma ZeroRounds(q: int)
    ensures RoundsTo(DecimalValue(0, q), 0)
  {
    hide Pow;
    TimesPow(0, 2, 1075);
    if q >= 0 {
      TimesPow(0, 10, q);
    }
  }

  /** Below 10^-342 every word is less than half of the least double. */
  lemma Underflows(q: int, w0: Limb)
    requires q < -342
    ensures RoundsTo(DecimalValue(w0, q), 0)
  {
    hide Pow, V, Mid, Times;
    var k := -q;
    SmallBound(k);
    MulLess(w0, 0x1_0000_0000_0000_0000, Pow(2, 1075), Pow(2, 1075));
    TimesPow(w0, 2, 1075);
    SmallDouble(0);
    Ratio(1, w0 * Pow(2, 1075), Pow(10, k));
  }

  lemma SmallBound(k: nat)
    requires k > 342
    ensures 0x1_0000_0000_0000_0000 * Pow(2, 1075) <= Pow(10, k)
  {
    hide Pow, PowerOfFive, Good;
    LeastFive(PowerOfFive(-342));
    TenIsTwoFive(343);
    PowAdd(2, 343, 796);
    MulMonotone(Pow(2, 343), Pow(2, 343), Pow(2, 796), Pow(5, 343));
    PowMonotone(10, 343, k);
    PowAdd(2, 64, 1075);
    Pow2Word();
  }

  lemma LeastFive(t: nat)
    requires Good(-342, t)
    ensures Pow(5, 343) >= Pow(2, 796)
  {
    hide Pow;
    LeastEntry(t);
    FromCut(t, Pow(5, 342), Pow(2, 794));
    OneMoreFive(342, 794);
  }

  lemma LeastEntry(t: nat)
    requires Good(-342, t)
    ensures 2 * Pow(2, 794) * TOP < (t + 1) * Pow(5, 342)
  {
    assert Log2Five(-342) == -795;
    assert Pow(2, 795) == 2 * Pow(2, 794);
  }

  lemma OneMoreFive(k: nat, n: nat)
    ensures Pow(5, k + 1) == 5 * Pow(5, k) && Pow(2, n + 2) == 4 * Pow(2, n)
  {
    assert Pow(2, n + 2) == 2 * Pow(2, n + 1);
  }

  lemma FromCut(t: nat, five: nat, two: nat)
    requires t < 0x1_0000_0000_0000_0000_0000_0000_0000_0000 && 2 * two * TOP < (t + 1) * five
    ensures five >= two
  {
    MulMonotone(t + 1, 2 * TOP, five, five);
  }

  /** Above 10^308 everything is at least 2^1024. */
  lemma Overflows(q: int, w0: nat)
    requires q > 308 && w0 > 0
    ensures RoundsTo(DecimalValue(w0, q), INFINITY)
  {
    hide Pow, V, Mid, Times;
    LargeBound(q);
    TimesPow(w0, 10, q);
    TimesPow(w0 * Pow(10, q), 2, 1075);
    MulMonotone(1, w0, Pow(10, q), Pow(10, q));
    MulMonotone(Pow(10, q), w0 * Pow(10, q), Pow(2, 1075), Pow(2, 1075));
    InfinityValue();
    MidBelow(INFINITY - 1, INFINITY);
  }

  lemma LargeBound(q: nat)
    requires q > 308
    ensures Pow(2, 2099) <= Pow(10, q) * Pow(2, 1075)
  {
    hide Pow, PowerOfFive, Good;
    MostFive(PowerOfFive(308));
    TenIsTwoFive(309);
    PowAdd(2, 309, 715);
    MulMonotone(Pow(2, 309), Pow(2, 309), Pow(2, 715), Pow(5, 309));
    PowMonotone(10, 309, q);
    PowAdd(2, 1024, 1075);
    MulMonotone(Pow(2, 1024), Pow(10, q), Pow(2, 1075), Pow(2, 1075));
  }

  lemma MostFive(t: nat)
    requires Good(308, t)
    ensures Pow(5, 309) >= Pow(2, 715)
  {
    hide Pow;
    MostEntry(t);
    CancelLess(Pow(2, 715) - 1, Pow(5, 308), TOP) by {
      MulMonotone(TOP, t, Pow(2, 715), Pow(2, 715));
    }
    OneMoreFive(308, 715);
  }

  lemma MostEntry(t: nat)
    requires Good(308, t)
    ensures t * Pow(2, 715) <= Pow(5, 308) * TOP
  {
    hide Pow, Isolated;
    assert Log2Five(308) == 715;
  }

  lemma InfinityValue()
    ensures 2 * V(INFINITY) == Pow(2, 2099)
  {
    hide Pow, V;
    ClosedForm(INFINITY);
    UlpIsPower(INFINITY);
    assert Sig(INFINITY) == 0x10_0000_0000_0000 && Exp(INFINITY) == 2046;
    PowAdd(2, 53, 2046);
    FiftyThree();
  }

  // ------------------------------------------------------------------ the conversion

  /** The upper word of the product of two normalized words is at least 2^62. */
  lemma ProductHigh(t: nat, w: Limb, low: Limb, high: Limb)
    requires w >= 0x8000_0000_0000_0000 && t >= 0x8000_0000_0000_0000_0000_0000_0000_0000 && Approximates(t, w, low, high)
    ensures high >= 0x4000_0000_0000_0000
  {
    var hi := t / 0x1_0000_0000_0000_0000;
    MulMonotone(0x8000_0000_0000_0000, w, 0x8000_0000_0000_0000, hi);
    BothWords(w, t);
  }

  /** The shift that leaves 54 bits of the upper word, and what it leaves. */
  lemma LeadingBits(high: Limb, s: nat)
    requires high >= 0x4000_0000_0000_0000 && s == if high >= 0x8000_0000_0000_0000 then 10 else 9
    ensures var m := ShiftRight(high, s);
      && 0x20_0000_0000_0000 <= m < 0x40_0000_0000_0000 && ShiftLeft(m, s) == m * Pow(2, s) <= high
      && m == (if s == 9 then high / 0x200 else high / 0x200 / 2)
  {
    assert Pow(2, 9) == 512 && Pow(2, 10) == 1024;
  }

  lemma UnitOf(s: nat)
    requires 9 <= s <= 10
    ensures Unit(s, if s == 9 then SLOT else 2 * SLOT)
  {
    hide Pow;
    TopIsPower();
    PowAdd(2, 127, 10);
    PowAdd(2, 127, 11);
    assert Pow(2, 10) == 1024 && Pow(2, 11) == 2048 by {
      SmallShifts();
    }
  }

  lemma SmallShifts()
    ensures Pow(2, 10) == 1024 && Pow(2, 11) == 2048
  {
  }

  /** The leading 54 bits of w0 * 10^q, the exponent that goes with them, and whether they are all of it if their last one is set. */
  method Leading(q: int, w0: Limb) returns (low: Limb, high: Limb, shift: nat, mantissa: Limb, power2: int)
    requires -342 <= q <= 308 && w0 != 0
    ensures 0x20_0000_0000_0000 <= mantissa < 0x40_0000_0000_0000
    ensures mantissa as real * Two(power2 - 1) <= DecimalValue(w0, q) < (mantissa + 1) as real * Two(power2 - 1)
    ensures mantissa % 2 == 1 ==>
      (DecimalValue(w0, q) == mantissa as real * Two(power2 - 1) <==>
      low <= 1 && -4 <= q <= 23 && ShiftLeft(mantissa, shift) == high)
    ensures power2 <= 0 ==> q <= -28
    ensures q >= 0 ==> power2 >= 1
  {
    hide Pow, Two, DecimalValue, Good, Num, Den, Approximates, Log2Five, ShiftLeft, ShiftRight, LeadingZeros, OnPoint, WholeSlots, Unit;
    var lz := CountLeadingZeroes(w0);
    Justify(w0);
    var w := ShiftLeft(w0, lz);
    ghost var t;
    low, high, t := ComputeProductApproximation(q, w);
    NormalEntry(q, t);
    ProductHigh(t, w, low, high);
    var upperbit := high / 0x8000_0000_0000_0000;
    shift := upperbit + 64 - 52 - 3;
    mantissa := ShiftRight(high, shift);
    power2 := B10ToB2(q) + upperbit - lz + 1023;
    LeadingBits(high, shift);
    UnitOf(shift);
    LogIs(q);
    ghost var e := q + Log2Five(q) + 948 - lz;
    DecimalScaled(q, w0, lz, w);
    WindowOf(q, w, high / 0x200, mantissa, shift, if shift == 9 then SLOT else 2 * SLOT, e, DecimalValue(w0, q));
    if mantissa % 2 == 1 {
      TieDetected(q, t, w, low, high, mantissa, shift, if shift == 9 then SLOT else 2 * SLOT);
    }
    PowerRange(q, lz, upperbit);
  }

  lemma LogIs(q: int)
    ensures B10ToB2(q) == Log2Five(q) + q + 63
  {
  }

  lemma PowerRange(q: int, lz: nat, upperbit: nat)
    requires lz <= 63
    ensures B10ToB2(q) + upperbit - lz + 1023 <= 0 ==> q <= -28
    ensures q >= 0 ==> B10ToB2(q) + upperbit - lz + 1023 >= 1
  {
  }

  /** The nearest double to w0 * 10^q, ties to even, for every decimal exponent and every word. */
  method ComputeFloat(q: int, w0: Limb) returns (answer: AdjustedMantissa)
    ensures fresh(answer) && answer.Final()
    ensures RoundsTo(DecimalValue(w0, q), answer.Word())
    ensures q < -342 ==> answer.mantissa == 0 && answer.power2 == 0
    ensures q > 308 && w0 != 0 ==> answer.mantissa == 0 && answer.power2 == 0x7FF
  {
    hide Pow, Two, RoundsTo, DecimalValue, ShiftLeft, Clamp;
    if w0 == 0 || q < -342 {
      if w0 == 0 {
        ZeroRounds(q);
      } else {
        Underflows(q, w0);
      }
      answer := new AdjustedMantissa(0, 0);
      return;
    }
    if q > 308 {
      Overflows(q, w0);
      answer := new AdjustedMantissa(0, 0x7FF);
      return;
    }
    var low, high, shift, mantissa, power2 := Leading(q, w0);
    if power2 <= 0 {
      answer := Subnormal(q, w0, mantissa, power2);
      return;
    }
    NormalRounds(mantissa, power2, DecimalValue(w0, q));
    if low <= 1 && -4 <= q <= 23 && mantissa % 4 == 1 {
      if ShiftLeft(mantissa, shift) == high {
        mantissa := mantissa - 1;
      }
    }
    mantissa := mantissa + mantissa % 2;
    mantissa := mantissa / 2;
    answer := new AdjustedMantissa(mantissa, power2);
    answer.RoundFinish();
  }

  /** Below the normal range the significand is shifted until its last bit stands for half of the least double. */
  method Subnormal(q: int, w0: Limb, mantissa0: Limb, power2: int) returns (answer: AdjustedMantissa)
    requires -342 <= q <= -28 && w0 > 0 && power2 <= 0 && mantissa0 < 0x40_0000_0000_0000
    requires mantissa0 as real * Two(power2 - 1) <= DecimalValue(w0, q) < (mantissa0 + 1) as real * Two(power2 - 1)
    ensures fresh(answer) && answer.Final() && RoundsTo(DecimalValue(w0, q), answer.Word())
  {
    hide Pow, Two, RoundsTo, DecimalValue, ShiftRight;
    ghost var a := DecimalValue(w0, q);
    HalvesWindow(mantissa0, 1 - power2, a);
    if -power2 + 1 >= 64 {
      FarBelow(mantissa0, 1 - power2);
      SubnormalRounds(0, a);
      answer := new AdjustedMantissa(0, 0);
      return;
    }
    var mantissa := ShiftRight(mantissa0, -power2 + 1);
    HalvedOnce(mantissa0, 1 - power2, mantissa);
    if mantissa % 2 == 1 {
      NeverWhole(q, w0, mantissa);
    }
    SubnormalRounds(mantissa, a);
    mantissa := mantissa + mantissa % 2;
    mantissa := mantissa / 2;
    answer := new AdjustedMantissa(mantissa, if mantissa < 0x10_0000_0000_0000 then 0 else 1);
  }

  lemma HalvesWindow(m: nat, k: nat, a: real)
    requires m as real * Two(0 - k) <= a < (m + 1) as real * Two(0 - k)
    ensures (m / Pow(2, k)) as real <= a < (m / Pow(2, k) + 1) as real
  {
    hide Pow, Two;
    var p := Pow(2, k);
    DivMod(m, p);
    Distribute(m / p, 1, p);
    TwoAdd(k, 0 - k);
    TwoZero();
    TwoIs(k);
    Halves(m, m / p, p, Two(0 - k), a);
  }

  lemma Halves(m: nat, n: nat, p: nat, t: real, a: real)
    requires t > 0.0 && p as real * t == 1.0 && n * p <= m && m + 1 <= (n + 1) * p
    requires m as real * t <= a < (m + 1) as real * t
    ensures n as real <= a < (n + 1) as real
  {
    UnitBack(n, p, t);
    UnitBack(n + 1, p, t);
    RealOrder((n * p) as real, m as real, t);
    RealOrder((m + 1) as real, ((n + 1) * p) as real, t);
  }

  lemma UnitBack(n: nat, p: nat, t: real)
    requires p as real * t == 1.0
    ensures (n * p) as real * t == n as real
  {
    assert (n * p) as real * t == n as real * (p as real * t);
  }

  lemma HalvedOnce(m: Limb, k: nat, n: Limb)
    requires k >= 1 && m < 0x40_0000_0000_0000 && n == ShiftRight(m, k)
    ensures n == m / Pow(2, k) <= 0x20_0000_0000_0000
  {
    assert Pow(2, 1) == 2;
    PowMonotone(2, 1, k);
    DivMod(m, Pow(2, k));
    MulMonotone(m / Pow(2, k), m / Pow(2, k), 2, Pow(2, k));
  }

  lemma FarBelow(m: nat, k: nat)
    requires k >= 64 && m < 0x40_0000_0000_0000
    ensures m / Pow(2, k) == 0
  {
    hide Pow;
    Pow2Word();
    PowMonotone(2, 64, k);
    Vanishes(m, Pow(2, k));
  }

  lemma Vanishes(m: nat, p: nat)
    requires m < p
    ensures m / p == 0
  {
  }
}
