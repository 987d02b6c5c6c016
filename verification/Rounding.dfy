/**
 * The adjusted mantissa of the decimal conversion, and the three ways it is
 * rounded to a double in place.
 */
module Rounding {
  import opened Powers
  import opened Bits
  import opened Limbs
  import opened Binary64

  /** The shift that leaves 53 bits of a 64-bit mantissa, or fewer for a subnormal. */
  function Shift(power2: int): nat {
    if -power2 >= 11 then if 1 - power2 > 64 then 64 else 1 - power2 else 11
  }

  function Kept(m: Limb, power2: int): nat {
    m / Pow(2, Shift(power2))
  }

  /** The word of the double at or below an adjusted mantissa, before overflow is considered. */
  function Chop(m: Limb, power2: int): nat {
    if -power2 >= 11 then Kept(m, power2) else (power2 + 10) * 0x10_0000_0000_0000 + Kept(m, power2)
  }

  function Clamp(i: nat): nat {
    Lesser(i, INFINITY)
  }

  /** Whether the bits shifted out, with a sticky bit below them, round up. */
  predicate TieUp(m: Limb, shift: nat, truncated: bool)
    requires 1 <= shift <= 64
  {
    var rest, half := m % Pow(2, shift), Pow(2, shift - 1);
    rest > half || (rest == half && (truncated || (m / Pow(2, shift)) % 2 == 1))
  }

  lemma ChopParity(m: Limb, power2: int)
    ensures Chop(m, power2) % 2 == Kept(m, power2) % 2
  {
    var k := Kept(m, power2);
    Even(power2 + 10, k);
  }

  lemma Even(p: int, k: int)
    ensures (p * 0x10_0000_0000_0000 + k) % 2 == k % 2
  {
    assert p * 0x10_0000_0000_0000 + k == 2 * (p * 0x8_0000_0000_0000) + k;
  }

  /** Below 53 bits are kept for a normal number, and at most 52 for a subnormal one. */
  lemma KeptBounds(m: Limb, power2: int)
    ensures 0 <= Kept(m, power2) < 0x20_0000_0000_0000
    ensures -power2 >= 11 ==> Kept(m, power2) < 0x10_0000_0000_0000
    ensures -power2 < 11 && m >= 0x8000_0000_0000_0000 ==> Kept(m, power2) >= 0x10_0000_0000_0000
    ensures -power2 < 11 ==> Kept(m, power2) == m / 2048
  {
    assert Pow(2, 11) == 2048 && Pow(2, 12) == 4096;
    if -power2 >= 11 {
      PowMonotone(2, 12, Shift(power2));
      DivSmall(m, Pow(2, Shift(power2)));
    }
  }

  lemma DivSmall(m: Limb, d: nat)
    requires d >= 4096
    ensures 0 <= m / d < 0x10_0000_0000_0000
  {
    DivMod(m, d);
    MulMonotone(m / d, m / d, 4096, d);
  }

  class AdjustedMantissa {
    var mantissa: Limb
    var power2: int

    constructor (m: Limb, p: int)
      ensures mantissa == m && power2 == p
    {
      mantissa, power2 := m, p;
    }

    predicate Final()
      reads this
    {
      && 0 <= power2 <= 2047
      && (mantissa < 0x10_0000_0000_0000 || (mantissa == 0x10_0000_0000_0000 && power2 == 1))
      && (power2 == 2047 ==> mantissa == 0)
    }

    /** The bits of the double: mantissa or-ed with the exponent field, whose lowest bit it may share. */
    function Word(): (w: nat)
      requires Final()
      reads this
      ensures w <= INFINITY
    {
      if mantissa == 0x10_0000_0000_0000 then mantissa else power2 * 0x10_0000_0000_0000 + mantissa
    }

    method RoundDownImpl(shift: nat)
      requires shift <= 64
      modifies this
      ensures mantissa == old(mantissa) / Pow(2, shift) && power2 == old(power2) + shift
    {
      if shift == 64 {
        ShiftAll(mantissa);
        mantissa := 0;
      } else {
        mantissa := ShiftRight(mantissa, shift);
      }
      power2 := power2 + shift;
    }

    method RoundNearestTieEvenTruncated(shift: nat, truncated: bool)
      requires 11 <= shift <= 64
      modifies this
      ensures mantissa == old(mantissa) / Pow(2, shift) + Bit(TieUp(old(mantissa), shift, truncated))
      ensures power2 == old(power2) + shift
    {
      var halfway := Pow(2, shift - 1);
      var truncatedBits := mantissa % Pow(2, shift);
      var isAbove := truncatedBits > halfway;
      var isHalfway := truncatedBits == halfway;
      KeptSmall(mantissa, shift);
      if shift == 64 {
        ShiftAll(mantissa);
        mantissa := 0;
      } else {
        mantissa := ShiftRight(mantissa, shift);
      }
      power2 := power2 + shift;
      var isOdd := mantissa % 2 == 1;
      if isAbove || (isHalfway && truncated) || (isOdd && isHalfway) {
        mantissa := mantissa + 1;
      }
    }

    method RoundNearestTieEvenCmp(shift: nat, ord: int)
      requires 11 <= shift <= 64
      modifies this
      ensures var q := old(mantissa) / Pow(2, shift);
        mantissa == q + Bit(ord > 0 || (ord == 0 && q % 2 == 1))
      ensures power2 == old(power2) + shift
    {
      KeptSmall(mantissa, shift);
      if shift == 64 {
        ShiftAll(mantissa);
        mantissa := 0;
      } else {
        mantissa := ShiftRight(mantissa, shift);
      }
      power2 := power2 + shift;
      var isOdd := mantissa % 2 == 1;
      if ord > 0 || (ord == 0 && isOdd) {
        mantissa := mantissa + 1;
      }
    }

    /** Carries a mantissa that rounded up to 2^53, drops the hidden bit and overflows to infinity. */
    method RoundFinish()
      requires 0x10_0000_0000_0000 <= mantissa <= 0x20_0000_0000_0000 && power2 >= 1
      modifies this
      ensures Final() && Word() == Clamp(old((power2 - 1) * 0x10_0000_0000_0000 + mantissa))
    {
      if mantissa >= 0x20_0000_0000_0000 {
        mantissa := 0x10_0000_0000_0000;
        power2 := power2 + 1;
      }
      mantissa := mantissa - 0x10_0000_0000_0000;
      if power2 >= 2047 {
        power2 := 2047;
        mantissa := 0;
      }
    }

    method RoundDown()
      requires mantissa >= 0x8000_0000_0000_0000
      modifies this
      ensures Final() && Word() == Clamp(Chop(old(mantissa), old(power2)))
      ensures GreatestBelow(Adjusted(old(mantissa), old(power2)), Word())
    {
      hide V, Pow, Adjusted, GreatestBelow;
      KeptBounds(mantissa, power2);
      ChopGreatest(mantissa, power2);
      if -power2 >= 11 {
        var shift := -power2 + 1;
        if shift > 64 {
          shift := 64;
        }
        RoundDownImpl(shift);
        power2 := if mantissa < 0x10_0000_0000_0000 then 0 else 1;
        return;
      }
      RoundDownImpl(11);
      RoundFinish();
    }

    method RoundTieEvenTruncated(truncated: bool)
      requires mantissa >= 0x8000_0000_0000_0000
      modifies this
      ensures Final()
      ensures Word() == Clamp(Chop(old(mantissa), old(power2)) + Bit(TieUp(old(mantissa), Shift(old(power2)), truncated)))
      ensures forall a :: InWindow(old(mantissa), old(power2), truncated, a) ==>
        (RoundsTo(a, Word()) <==> old(power2) >= -63 || (old(mantissa) == 0x8000_0000_0000_0000 && !truncated))
    {
      hide V, Mid, Pow, InWindow, RoundsTo;
      forall a | InWindow(mantissa, power2, truncated, a) {
        TruncatedExactly(mantissa, power2, truncated, a);
      }
      KeptBounds(mantissa, power2);
      if -power2 >= 11 {
        var shift := -power2 + 1;
        if shift > 64 {
          shift := 64;
        }
        RoundNearestTieEvenTruncated(shift, truncated);
        power2 := if mantissa < 0x10_0000_0000_0000 then 0 else 1;
        return;
      }
      RoundNearestTieEvenTruncated(11, truncated);
      RoundFinish();
    }

    method RoundDoubleTieEvenCmp(ord: int)
      requires mantissa >= 0x8000_0000_0000_0000
      modifies this
      ensures Final()
      ensures var b := Chop(old(mantissa), old(power2));
        Word() == Clamp(b + Bit(ord > 0 || (ord == 0 && b % 2 == 1)))
      ensures forall a :: Against(Chop(old(mantissa), old(power2)), ord, a) ==> RoundsTo(a, Word())
    {
      hide V, Mid, Pow, Against, RoundsTo;
      forall a | Against(Chop(mantissa, power2), ord, a) {
        ComparedRounds(Chop(mantissa, power2), ord, a);
      }
      KeptBounds(mantissa, power2);
      ChopParity(mantissa, power2);
      if -power2 >= 11 {
        var shift := -power2 + 1;
        if shift > 64 {
          shift := 64;
        }
        RoundNearestTieEvenCmp(shift, ord);
        power2 := if mantissa < 0x10_0000_0000_0000 then 0 else 1;
        return;
      }
      RoundNearestTieEvenCmp(11, ord);
      RoundFinish();
    }
  }

  lemma ShiftAll(m: Limb)
    ensures m / Pow(2, 64) == 0
  {
    Pow2Word();
  }

  lemma KeptSmall(m: Limb, shift: nat)
    requires 11 <= shift <= 64
    ensures 0 <= m / Pow(2, shift) < 0x20_0000_0000_0000
  {
    assert Pow(2, 11) == 2048;
    PowMonotone(2, 11, shift);
    DivMod(m, Pow(2, shift));
    MulMonotone(m / Pow(2, shift), m / Pow(2, shift), 2048, Pow(2, shift));
  }

  /** The double below a normal adjusted mantissa, its successor and the point between, in units of 2^power2. */
  lemma ChopValue(m: Limb, power2: nat)
    requires m >= 0x8000_0000_0000_0000
    ensures var b, q := Chop(m, power2), m / 2048;
      && 2 * V(b) == (2048 * q) * Pow(2, power2)
      && 2 * V(b + 1) == (2048 * q + 2048) * Pow(2, power2)
      && Mid(b) == (2048 * q + 1024) * Pow(2, power2)
      && b % 2 == q % 2
  {
    hide V, Mid, Ulp, Sig, Exp, Pow;
    var b, q, w := Chop(m, power2), m / 2048, Pow(2, power2);
    KeptBounds(m, power2);
    MidIsSum(b);
    Fields(power2 + 10, q);
    UlpOf(b, power2);
    ClosedForm(b);
    MidClosedForm(b);
    ThreePoints(V(b), V(b + 1), Mid(b), Sig(b), Ulp(b), q, w);
    ChopParity(m, power2);
  }

  lemma MidIsSum(b: nat)
    ensures Mid(b) == V(b) + V(b + 1)
  {
  }

  lemma Fields(e: nat, q: nat)
    requires 0x10_0000_0000_0000 <= q < 0x20_0000_0000_0000
    ensures Sig(e * 0x10_0000_0000_0000 + q) == q && Exp(e * 0x10_0000_0000_0000 + q) == e
  {
  }

  lemma UlpOf(b: nat, e: nat)
    requires Exp(b) == 10 + e
    ensures Ulp(b) == 1024 * Pow(2, e)
  {
    UlpIsPower(b);
    PowAdd(2, 10, e);
    assert Pow(2, 10) == 1024;
  }

  lemma ThreePoints(v: nat, next: nat, mid: nat, sig: nat, ulp: nat, q: nat, w: nat)
    requires v == sig * ulp && mid == (2 * sig + 1) * ulp && mid == v + next
    requires sig == q && ulp == 1024 * w
    ensures 2 * v == (2048 * q) * w && 2 * next == (2048 * q + 2048) * w && mid == (2048 * q + 1024) * w
  {
    Associate(q, 1024, w);
    Associate(2 * q + 1, 1024, w);
    Distribute(2048 * q, 2048, w);
    Distribute(2048 * q, 1024, w);
  }

  /** A normal mantissa with its sticky bit, against the double below, its successor and the point between. */
  lemma TruncatedWindow(m: Limb, power2: nat, truncated: bool, a: nat)
    requires m >= 0x8000_0000_0000_0000
    requires var unit := Pow(2, power2);
      m * unit <= a < m * unit + unit && (truncated <==> m * unit != a)
    ensures var b := Chop(m, power2);
      && 2 * V(b) <= a < 2 * V(b + 1)
      && (TieUp(m, 11, truncated) <==> Mid(b) < a || (Mid(b) == a && b % 2 == 1))
  {
    hide V, Mid, Pow, Chop, TieUp;
    var b := Chop(m, power2);
    ChopValue(m, power2);
    TieUpEleven(m, truncated);
    TieByUnits(m, m / 2048, Pow(2, power2), 2 * V(b), 2 * V(b + 1), Mid(b), TieUp(m, 11, truncated), truncated, a);
  }

  /** Rounding a normal mantissa with its sticky bit gives the nearest double, ties to even, or infinity. */
  lemma TruncatedRounds(m: Limb, power2: nat, truncated: bool, a: nat, top: nat)
    requires m >= 0x8000_0000_0000_0000
    requires var unit := Pow(2, power2);
      m * unit <= a < m * unit + unit && (truncated <==> m * unit != a)
    ensures RoundsUpTo(a as real, Lesser(Chop(m, power2) + Bit(TieUp(m, 11, truncated)), top), top)
  {
    hide V, Mid, Pow, Chop, TieUp, RoundsUpTo, Lesser;
    TruncatedWindow(m, power2, truncated, a);
    WindowRounds(a, Chop(m, power2), TieUp(m, 11, truncated), top);
  }

  lemma WindowRounds(a: nat, b: nat, up: bool, top: nat)
    requires 2 * V(b) <= a < 2 * V(b + 1) && (up <==> Mid(b) < a || (Mid(b) == a && b % 2 == 1))
    ensures RoundsUpTo(a as real, Lesser(b + Bit(up), top), top)
  {
    hide V, Mid, RoundsUpTo;
    MidAbove(b + 1);
    RoundBetween(a as real, b, up, top);
  }

  lemma TieUpEleven(m: Limb, truncated: bool)
    ensures TieUp(m, 11, truncated) <==> m % 2048 > 1024 || (m % 2048 == 1024 && (truncated || (m / 2048) % 2 == 1))
  {
    assert Pow(2, 11) == 2048 && Pow(2, 10) == 1024;
  }

  /** The bits shifted out and the sticky bit compare the number with the halfway point. */
  lemma TieByUnits(m: nat, q: nat, unit: nat, low: nat, high: nat, mid: nat, up: bool, truncated: bool, a: nat)
    requires q == m / 2048 && unit > 0
    requires low == (2048 * q) * unit && high == (2048 * q + 2048) * unit && mid == (2048 * q + 1024) * unit
    requires up <==> m % 2048 > 1024 || (m % 2048 == 1024 && (truncated || q % 2 == 1))
    requires m * unit <= a < m * unit + unit && (truncated <==> m * unit != a)
    ensures low <= a < high
    ensures up <==> mid < a || (mid == a && q % 2 == 1)
  {
    SplitUnits(m, q, unit);
  }

  lemma SplitUnits(m: nat, q: nat, unit: nat)
    requires q == m / 2048
    ensures (2048 * q) * unit <= m * unit && m * unit + unit <= (2048 * q + 2048) * unit
    ensures m % 2048 < 1024 ==> m * unit + unit <= (2048 * q + 1024) * unit
    ensures m % 2048 == 1024 ==> m * unit == (2048 * q + 1024) * unit
    ensures m % 2048 > 1024 ==> m * unit >= (2048 * q + 1024) * unit + unit
  {
    assert m * unit + unit == (m + 1) * unit;
    MulMonotone(2048 * q, m, unit, unit);
    MulMonotone(m + 1, 2048 * q + 2048, unit, unit);
    if m % 2048 < 1024 {
      MulMonotone(m + 1, 2048 * q + 1024, unit, unit);
    } else if m % 2048 > 1024 {
      MulMonotone(2048 * q + 1025, m, unit, unit);
      Distribute(2048 * q + 1024, 1, unit);
    }
  }

  // ------------------------------------------------------------------ every binary exponent

  /** The number n * 2^power2, in units of 2^-1075: what an adjusted mantissa stands for. */
  function Adjusted(n: nat, power2: int): real {
    if power2 >= 0 then (n * Pow(2, power2)) as real else n as real / Pow(2, -power2) as real
  }

  /** Below a power of two, the double below, its successor and the point between, scaled up by 2^k to integers. */
  lemma NegativePoints(m: Limb, k: nat)
    requires m >= 0x8000_0000_0000_0000 && 0 < k <= 63
    ensures var b, q, s, u := Chop(m, 0 - k), Kept(m, 0 - k), Shift(0 - k), Pow(2, k);
      && 2 * V(b) * u == q * Pow(2, s) && 2 * V(b + 1) * u == q * Pow(2, s) + Pow(2, s)
      && Mid(b) * u == q * Pow(2, s) + Pow(2, s - 1) && Pow(2, s) == 2 * Pow(2, s - 1) && b % 2 == q % 2
  {
    hide V, Mid, Ulp, Sig, Exp, Pow, Chop, Kept;
    var b, q, s := Chop(m, 0 - k), Kept(m, 0 - k), Shift(0 - k);
    KeptBounds(m, 0 - k);
    ChopParity(m, 0 - k);
    MidIsSum(b);
    ClosedForm(b);
    MidClosedForm(b);
    NegativeFields(m, k);
    UlpIsPower(b);
    PowAdd(2, s - 1 - k, k);
    Doubled(s - 1);
    ScaledPoints(V(b), V(b + 1), Mid(b), q, Ulp(b), Pow(2, k), Pow(2, s - 1));
  }

  lemma NegativeFields(m: Limb, k: nat)
    requires m >= 0x8000_0000_0000_0000 && 0 < k <= 63
    ensures var b := Chop(m, 0 - k);
      Sig(b) == Kept(m, 0 - k) && Exp(b) == Shift(0 - k) - 1 - k && Shift(0 - k) >= 1 + k
  {
    hide Kept;
    KeptBounds(m, 0 - k);
    if k < 11 {
      Fields(10 - k, Kept(m, 0 - k));
    }
  }

  lemma Doubled(n: nat)
    ensures Pow(2, n + 1) == 2 * Pow(2, n)
  {
  }

  lemma ScaledPoints(v: nat, next: nat, mid: nat, sig: nat, ulp: nat, u: nat, half: nat)
    requires v == sig * ulp && mid == (2 * sig + 1) * ulp && mid == v + next && ulp * u == half
    ensures 2 * v * u == sig * (2 * half) && mid * u == sig * (2 * half) + half && 2 * next * u == sig * (2 * half) + 2 * half
  {
    Associate(sig, ulp, u);
    Associate(2 * sig + 1, ulp, u);
    assert (2 * sig + 1) * half == 2 * (sig * half) + half;
    assert next * u == mid * u - v * u;
  }

  /** Far below, everything is less than half of the least double. */
  lemma TinyChop(m: Limb, k: nat)
    requires k >= 64
    ensures Chop(m, 0 - k) == 0 && Shift(0 - k) == 64 && Kept(m, 0 - k) == 0 && V(0) == 0 && V(1) == 1 && Mid(0) == 1
    ensures m < m + 1 <= Pow(2, k)
  {
    ShiftAll(m);
    Pow2Word();
    PowMonotone(2, 64, k);
    hide Pow;
    assert V(1) == V(0) + Ulp(0);
  }

  /** The word kept by chopping is that of the greatest double not above, for every binary exponent. */
  lemma ChopBelow(m: Limb, power2: int)
    requires m >= 0x8000_0000_0000_0000
    ensures var b := Chop(m, power2); (2 * V(b)) as real <= Adjusted(m, power2) < (2 * V(b + 1)) as real
  {
    hide V, Mid, Pow, Chop, Kept;
    var b := Chop(m, power2);
    if power2 >= 0 {
      ChopValue(m, power2);
      SplitUnits(m, m / 2048, Pow(2, power2));
    } else if power2 >= -63 {
      NegativePoints(m, -power2);
      KeptRest(m, power2);
      Ratio(2 * V(b), m, Pow(2, -power2));
      Ratio(2 * V(b + 1), m, Pow(2, -power2));
    } else {
      TinyChop(m, -power2);
      Ratio(0, m, Pow(2, -power2));
      Ratio(2, m, Pow(2, -power2));
    }
  }

  /** Any number whose leading 53 bits are those of the adjusted mantissa is chopped to the same double. */
  lemma ChopWindow(m: Limb, power2: int, a: real)
    requires m >= 0x8000_0000_0000_0000
    requires var k := m / 2048; k as real * Two(power2 + 11) <= a < (k + 1) as real * Two(power2 + 11)
    ensures var b := Chop(m, power2); (2 * V(b)) as real <= a < (2 * V(b + 1)) as real
  {
    hide V, Mid, Pow, Chop, Kept, Two;
    if power2 >= 0 {
      NormalWindow(m, power2, a);
    } else if power2 >= -63 {
      NegativeWindow(m, power2, a);
    } else {
      TinyChop(m, -power2);
      TwoSmall(power2 + 11);
      TinyWindow(m / 2048, Two(power2 + 11), a);
    }
  }

  lemma NormalWindow(m: Limb, power2: nat, a: real)
    requires m >= 0x8000_0000_0000_0000
    requires var k := m / 2048; k as real * Two(power2 + 11) <= a < (k + 1) as real * Two(power2 + 11)
    ensures var b := Chop(m, power2); (2 * V(b)) as real <= a < (2 * V(b + 1)) as real
  {
    hide V, Mid, Pow, Chop, Two;
    var k, u := m / 2048, Two(power2);
    ChopValue(m, power2);
    TwoAdd(power2, 11);
    TwoEleven();
    TwoIs(power2);
    RealUnits(2048 * k, Pow(2, power2), u);
    RealUnits(2048 * k + 2048, Pow(2, power2), u);
    Regrouped(k, u);
    Regrouped(k + 1, u);
  }

  lemma NegativeWindow(m: Limb, power2: int, a: real)
    requires m >= 0x8000_0000_0000_0000 && -63 <= power2 < 0
    requires var k := m / 2048; k as real * Two(power2 + 11) <= a < (k + 1) as real * Two(power2 + 11)
    ensures var b := Chop(m, power2); (2 * V(b)) as real <= a < (2 * V(b + 1)) as real
  {
    hide V, Mid, Pow, Chop, Kept, Two;
    var k, b, u := m / 2048, Chop(m, power2), Pow(2, -power2);
    NegativePoints(m, -power2);
    KeptSplits(m, power2);
    TwoAdd(power2 + 11, -power2);
    TwoEleven();
    TwoIs(-power2);
    Unscale(k, Two(power2 + 11), Two(-power2), a, 2 * V(b), 2 * V(b + 1), u);
  }

  lemma TwoIs(n: nat)
    ensures Two(n) == Pow(2, n) as real
  {
  }

  lemma TwoEleven()
    ensures Two(11) == 2048.0
  {
    assert Pow(2, 11) == 2048;
  }

  lemma RealUnits(m: nat, unit: nat, u: real)
    requires u == unit as real
    ensures m as real * u == (m * unit) as real
  {
  }

  lemma Regrouped(k: nat, u: real)
    ensures k as real * (u * 2048.0) == (2048 * k) as real * u
  {
  }

  /** What is kept of the mantissa, in multiples of 2048. */
  lemma KeptSplits(m: Limb, power2: int)
    ensures var q, p := Kept(m, power2), Pow(2, Shift(power2));
      q * p <= m / 2048 * 2048 && m / 2048 * 2048 + 2048 <= q * p + p
  {
    var s := Shift(power2);
    hide Pow, Kept;
    KeptRest(m, power2);
    PowAdd(2, 11, s - 11);
    Eleven();
    Multiples(m, Kept(m, power2), Pow(2, s - 11), Pow(2, s));
  }

  lemma Eleven()
    ensures Pow(2, 11) == 2048
  {
  }

  lemma Multiples(m: nat, q: nat, p: nat, w: nat)
    requires w == 2048 * p && q * w <= m < q * w + w
    ensures q * w <= m / 2048 * 2048 && m / 2048 * 2048 + 2048 <= q * w + w
  {
    assert q * w == 2048 * (q * p);
  }

  lemma Unscale(k: nat, x: real, t: real, a: real, low: nat, high: nat, u: nat)
    requires t > 0.0 && x * t == 2048.0 && t == u as real && k as real * x <= a < (k + 1) as real * x
    requires low * u <= k * 2048 && k * 2048 + 2048 <= high * u
    ensures low as real <= a < high as real
  {
    RealUnits(low, u, t);
    RealUnits(high, u, t);
    Rescaled(k, x, t);
    Rescaled(k + 1, x, t);
    RealOrder(low as real, k as real * x, t);
    RealOrder((k + 1) as real * x, high as real, t);
  }

  lemma Rescaled(k: nat, x: real, t: real)
    requires x * t == 2048.0
    ensures (k as real * x) * t == (k * 2048) as real
  {
    assert (k as real * x) * t == k as real * (x * t);
  }

  lemma RealOrder(x: real, y: real, t: real)
    requires t > 0.0
    ensures x <= y <==> x * t <= y * t
    ensures x < y <==> x * t < y * t
  {
  }

  lemma TwoSmall(e: int)
    requires e <= -53
    ensures Two(e) * 9007199254740992.0 <= 1.0
  {
    hide Two, Pow;
    var n := -e;
    FiftyThree();
    PowMonotone(2, 53, n);
    TwoAdd(e, n);
    TwoIs(n);
    TwoAt(0);
    assert Two(e) * Two(n) == 1.0;
    assert Two(e) * 9007199254740992.0 <= Two(e) * Two(n);
  }

  lemma TwoAt(e: int)
    requires e == 0
    ensures Two(e) == 1.0
  {
  }

  lemma FiftyThree()
    ensures Pow(2, 53) == 0x20_0000_0000_0000
  {
    hide Pow;
    Pow2Word();
    PowAdd(2, 53, 11);
    Eleven();
  }

  lemma TinyWindow(k: nat, x: real, a: real)
    requires k < 0x20_0000_0000_0000 && x > 0.0 && x * 9007199254740992.0 <= 1.0 && k as real * x <= a < (k + 1) as real * x
    ensures 0.0 <= a < 2.0
  {
    assert (k + 1) as real * x <= 9007199254740992.0 * x;
  }

  /** Word `w` is that of the greatest double not above `a`, or infinity from 2^1024 on. */
  predicate GreatestBelow(a: real, w: nat) {
    w <= INFINITY && (2 * V(w)) as real <= a && (w < INFINITY ==> a < (2 * V(w + 1)) as real)
  }

  lemma ChopGreatest(m: Limb, power2: int)
    requires m >= 0x8000_0000_0000_0000
    ensures GreatestBelow(Adjusted(m, power2), Clamp(Chop(m, power2)))
  {
    hide V, Chop, Adjusted;
    ChopBelow(m, power2);
    if Chop(m, power2) > INFINITY {
      Increasing(INFINITY, Chop(m, power2));
    }
  }

  lemma KeptRest(m: Limb, power2: int)
    ensures m == Kept(m, power2) * Pow(2, Shift(power2)) + m % Pow(2, Shift(power2))
    ensures 0 <= m % Pow(2, Shift(power2)) < Pow(2, Shift(power2))
  {
    DivMod(m, Pow(2, Shift(power2)));
  }

  /** A number in the window of an adjusted mantissa, with the flag that says whether it is cut. */
  ghost predicate InWindow(m: Limb, power2: int, truncated: bool, a: real) {
    Adjusted(m, power2) <= a < Adjusted(m + 1, power2) && (truncated <==> a != Adjusted(m, power2))
  }

  /** The bits shifted out and the flag compare a number in the window with the halfway point, while the shift is not cut at 64. */
  lemma NegativeTie(m: Limb, power2: int, truncated: bool, a: real)
    requires m >= 0x8000_0000_0000_0000 && -63 <= power2 < 0 && InWindow(m, power2, truncated, a)
    ensures var b := Chop(m, power2);
      && (2 * V(b)) as real <= a < Mid(b + 1) as real
      && (TieUp(m, Shift(power2), truncated) <==> (Mid(b) as real) < a || (Mid(b) as real == a && b % 2 == 1))
  {
    hide V, Mid, Pow, Chop, Kept;
    var b, u := Chop(m, power2), Pow(2, -power2);
    NegativePoints(m, -power2);
    KeptRest(m, power2);
    KeptIs(m, power2);
    MidAbove(b + 1);
    Ratio(2 * V(b), m, u);
    Ratio(2 * V(b + 1), m + 1, u);
    Ratio(Mid(b), m, u);
    Ratio(Mid(b), m + 1, u);
  }

  lemma KeptIs(m: Limb, power2: int)
    ensures Kept(m, power2) == m / Pow(2, Shift(power2))
  {
  }

  /**
   * For every binary exponent: rounding with the truncation flag gives the
   * nearest double, ties to even, or infinity, if and only if the shift is not
   * cut at 64, or the mantissa is exactly 2^63 and nothing is cut off.
   */
  lemma TruncatedExactly(m: Limb, power2: int, truncated: bool, a: real)
    requires m >= 0x8000_0000_0000_0000 && InWindow(m, power2, truncated, a)
    ensures RoundsTo(a, Clamp(Chop(m, power2) + Bit(TieUp(m, Shift(power2), truncated))))
      <==> power2 >= -63 || (m == 0x8000_0000_0000_0000 && !truncated)
  {
    hide V, Mid, Pow, Chop, TieUp, RoundsUpTo;
    var up := TieUp(m, Shift(power2), truncated);
    if power2 >= 0 {
      NormalTie(m, power2, truncated, a);
      RoundBetween(a, Chop(m, power2), up, INFINITY);
    } else if power2 >= -63 {
      NegativeTie(m, power2, truncated, a);
      RoundBetween(a, Chop(m, power2), up, INFINITY);
    } else {
      TinyChop(m, -power2);
      TinyRounds(m, power2, a);
      TinyTie(m, truncated);
      if up && RoundsTo(a, 1) {
        RoundingUnique(a, 0, 1);
      }
    }
  }

  /** The same comparison for a mantissa that is an integer. */
  lemma NormalTie(m: Limb, power2: nat, truncated: bool, a: real)
    requires m >= 0x8000_0000_0000_0000 && InWindow(m, power2, truncated, a)
    ensures var b := Chop(m, power2);
      && (2 * V(b)) as real <= a < Mid(b + 1) as real
      && (TieUp(m, 11, truncated) <==> (Mid(b) as real) < a || (Mid(b) as real == a && b % 2 == 1))
  {
    hide V, Mid, Pow, Chop, TieUp;
    var unit := Pow(2, power2);
    ChopValue(m, power2);
    TieUpEleven(m, truncated);
    SplitUnits(m, m / 2048, unit);
    Distribute(m, 1, unit);
    MidAbove(Chop(m, power2) + 1);
  }

  lemma TinyRounds(m: Limb, power2: int, a: real)
    requires power2 <= -64 && Adjusted(m, power2) <= a < Adjusted(m + 1, power2)
    ensures RoundsTo(a, 0)
  {
    hide Pow, V, Mid;
    TinyChop(m, -power2);
    Ratio(0, m, Pow(2, -power2));
    Ratio(1, m + 1, Pow(2, -power2));
  }

  lemma TinyTie(m: Limb, truncated: bool)
    requires m >= 0x8000_0000_0000_0000
    ensures TieUp(m, 64, truncated) <==> m > 0x8000_0000_0000_0000 || truncated
  {
    HalfWord();
    hide Pow;
    ShiftAll(m);
  }

  /** A number with its comparison against the halfway point above double `b`. */
  ghost predicate Against(b: nat, ord: int, a: real) {
    && (2 * V(b)) as real <= a < Mid(b + 1) as real
    && (ord > 0 <==> (Mid(b) as real) < a) && (ord == 0 <==> Mid(b) as real == a)
  }

  /** For every binary exponent: rounding by a comparison with the halfway point gives the nearest double, ties to even, or infinity. */
  lemma ComparedRounds(b: nat, ord: int, a: real)
    requires Against(b, ord, a)
    ensures RoundsTo(a, Clamp(b + Bit(ord > 0 || (ord == 0 && b % 2 == 1))))
  {
    hide V, Mid, RoundsUpTo;
    RoundBetween(a, b, ord > 0 || (ord == 0 && b % 2 == 1), INFINITY);
  }
}
