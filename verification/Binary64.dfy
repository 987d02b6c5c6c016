/**
 * Non-negative binary64 numbers, named by their bit pattern: index `i` is the
 * double whose 64-bit word is `i`, and INFINITY stands for 2^1024. Rounding is
 * roundTiesToEven, section 4.3.1 of IEEE 754-2019.
 */
module Binary64 {
  import opened Powers

  const INFINITY := 0x7FF0_0000_0000_0000

  function Sig(i: nat): nat {
    if i < 0x10_0000_0000_0000 then i else 0x10_0000_0000_0000 + i % 0x10_0000_0000_0000
  }

  /** The exponent of the unit in the last place, in units of 2^-1074. */
  function Exp(i: nat): nat {
    if i < 0x10_0000_0000_0000 then 0 else i / 0x10_0000_0000_0000 - 1
  }

  /** The unit in the last place, in units of 2^-1074: it doubles with every binade above the first. */
  function Ulp(i: nat): (u: nat)
    ensures u > 0
  {
    if i < 0x20_0000_0000_0000 then 1 else 2 * Ulp(i - 0x10_0000_0000_0000)
  }

  /** The double's value in units of 2^-1074: each double is a unit in the last place above the one before. */
  function V(i: nat): nat {
    if i == 0 then 0 else V(i - 1) + Ulp(i - 1)
  }

  /** The point halfway to the next double, in units of 2^-1075. */
  function Mid(i: nat): nat {
    V(i) + V(i + 1)
  }

  lemma {:induction false} UlpIsPower(i: nat)
    ensures Ulp(i) == Pow(2, Exp(i))
  {
    if i >= 0x20_0000_0000_0000 {
      UlpIsPower(i - 0x10_0000_0000_0000);
      BinadeUp(i);
    }
  }

  lemma BinadeUp(i: nat)
    requires i >= 0x20_0000_0000_0000
    ensures Exp(i) == 1 + Exp(i - 0x10_0000_0000_0000)
    ensures Sig(i) == Sig(i - 0x10_0000_0000_0000)
  {
  }

  /** The value of a double is its significand times a power of two. */
  lemma {:induction false} ClosedForm(i: nat)
    ensures V(i) == Sig(i) * Ulp(i)
  {
    if i > 0 {
      ClosedForm(i - 1);
      NextUnit(i - 1);
      Distribute(Sig(i - 1), 1, Ulp(i - 1));
    }
  }

  lemma FirstBinade(i: nat)
    requires i < 0x20_0000_0000_0000
    ensures Ulp(i) == 1 && Sig(i) == i
  {
  }

  lemma {:induction false} NextUnit(i: nat)
    ensures Sig(i + 1) * Ulp(i + 1) == (Sig(i) + 1) * Ulp(i)
  {
    hide Sig, Exp;
    if i >= 0x20_0000_0000_0000 {
      var k := i - 0x10_0000_0000_0000;
      NextUnit(k);
      BinadeUp(i);
      BinadeUp(i + 1);
      DoubleUnits(Sig(k + 1), Ulp(k + 1), Sig(k) + 1, Ulp(k));
    } else if i == 0x1F_FFFF_FFFF_FFFF {
      LastOfFirst();
    } else {
      FirstBinade(i);
      FirstBinade(i + 1);
    }
  }

  lemma DoubleUnits(s: nat, u: nat, t: nat, v: nat)
    requires s * u == t * v
    ensures s * (2 * u) == t * (2 * v)
  {
    Associate(2, s, u);
    Associate(2, t, v);
  }

  lemma LastOfFirst()
    ensures Sig(0x20_0000_0000_0000) == 0x10_0000_0000_0000 && Ulp(0x20_0000_0000_0000) == 2
    ensures Sig(0x1F_FFFF_FFFF_FFFF) == 0x1F_FFFF_FFFF_FFFF && Ulp(0x1F_FFFF_FFFF_FFFF) == 1
  {
  }

  lemma MidClosedForm(i: nat)
    ensures Mid(i) == (2 * Sig(i) + 1) * Ulp(i)
  {
    ClosedForm(i);
    Distribute(2 * Sig(i), 1, Ulp(i));
    Associate(2, Sig(i), Ulp(i));
  }

  /** Larger words are larger doubles. */
  lemma {:induction false} Increasing(i: nat, j: nat)
    requires i < j
    ensures V(i) < V(j)
    decreases j - i
  {
    if i + 1 < j {
      Increasing(i + 1, j);
    }
  }

  /** The distance from a number to double `j`, both in units of 2^-1075. */
  function Distance(x: real, j: nat): real {
    var v := (2 * V(j)) as real;
    if x < v then v - x else x - v
  }

  /** Nearest among the doubles up to `top`, and the even one of two that are equally near. */
  ghost predicate NearestUpTo(x: real, i: nat, top: nat) {
    && i <= top
    && forall j: nat :: j <= top && j != i ==>
      Distance(x, i) <= Distance(x, j) && (Distance(x, i) == Distance(x, j) ==> i % 2 == 0)
  }

  /** The same by comparison with the two halfway points around the double. */
  predicate RoundsUpTo(x: real, i: nat, top: nat) {
    && i <= top
    && (i > 0 ==> Mid(i - 1) as real <= x && (Mid(i - 1) as real == x ==> i % 2 == 0))
    && (i < top ==> x <= Mid(i) as real && (Mid(i) as real == x ==> i % 2 == 0))
  }

  /** The IEEE definition of rounding a number in units of 2^-1075. */
  ghost predicate Nearest(x: real, i: nat) {
    NearestUpTo(x, i, INFINITY)
  }

  predicate RoundsTo(x: real, i: nat) {
    RoundsUpTo(x, i, INFINITY)
  }

  /** Comparing the distances to two doubles is comparing with the point between them. */
  lemma Closer(x: real, i: nat, j: nat)
    requires i < j
    ensures Distance(x, i) < Distance(x, j) <==> x < (V(i) + V(j)) as real
    ensures Distance(x, i) == Distance(x, j) <==> x == (V(i) + V(j)) as real
  {
    Increasing(i, j);
  }

  /** The halfway points between two doubles, against the point halfway between the doubles themselves. */
  lemma Between(i: nat, j: nat)
    requires i < j
    ensures Mid(i) <= V(i) + V(j) <= Mid(j - 1)
    ensures i + 1 < j ==> Mid(i) < V(i) + V(j) < Mid(j - 1)
  {
    if i + 1 < j {
      Increasing(i + 1, j);
      Increasing(i, j - 1);
    }
  }

  lemma CloserThan(x: real, i: nat, j: nat, top: nat)
    requires RoundsUpTo(x, i, top) && j <= top && j != i
    ensures Distance(x, i) <= Distance(x, j)
    ensures Distance(x, i) == Distance(x, j) ==> i % 2 == 0
  {
    if i < j {
      Between(i, j);
      Closer(x, i, j);
    } else {
      Between(j, i);
      Closer(x, j, i);
    }
  }

  lemma NearestBelow(x: real, i: nat, top: nat)
    requires NearestUpTo(x, i, top) && i > 0
    ensures Mid(i - 1) as real <= x && (Mid(i - 1) as real == x ==> i % 2 == 0)
  {
    var j := i - 1;
    assert Distance(x, i) <= Distance(x, j) && (Distance(x, i) == Distance(x, j) ==> i % 2 == 0);
    Closer(x, j, i);
  }

  lemma NearestAbove(x: real, i: nat, top: nat)
    requires NearestUpTo(x, i, top) && i < top
    ensures x <= Mid(i) as real && (Mid(i) as real == x ==> i % 2 == 0)
  {
    var j := i + 1;
    assert Distance(x, i) <= Distance(x, j) && (Distance(x, i) == Distance(x, j) ==> i % 2 == 0);
    Closer(x, i, j);
  }

  lemma RoundedIsNearest(x: real, i: nat, top: nat)
    requires RoundsUpTo(x, i, top)
    ensures NearestUpTo(x, i, top)
  {
    forall j: nat | j <= top && j != i
      ensures Distance(x, i) <= Distance(x, j) && (Distance(x, i) == Distance(x, j) ==> i % 2 == 0)
    {
      CloserThan(x, i, j, top);
    }
  }

  lemma NearestIsRounded(x: real, i: nat, top: nat)
    requires NearestUpTo(x, i, top)
    ensures RoundsUpTo(x, i, top)
  {
    if i > 0 {
      NearestBelow(x, i, top);
    }
    if i < top {
      NearestAbove(x, i, top);
    }
  }

  /** The two definitions of rounding agree. */
  lemma RoundsToIsNearest(x: real, i: nat)
    ensures RoundsTo(x, i) <==> Nearest(x, i)
  {
    if RoundsTo(x, i) {
      RoundedIsNearest(x, i, INFINITY);
    } else if Nearest(x, i) {
      NearestIsRounded(x, i, INFINITY);
    }
  }

  lemma NotBoth(x: real, low: nat, high: nat, i: nat, j: nat)
    requires i < j && low <= high && (i + 1 < j ==> low < high)
    ensures !(x <= low as real && high as real <= x
              && (low as real == x ==> i % 2 == 0) && (high as real == x ==> j % 2 == 0))
  {
  }

  lemma Exclusive(x: real, i: nat, j: nat, top: nat)
    requires i < j && RoundsUpTo(x, i, top)
    ensures !RoundsUpTo(x, j, top)
  {
    Between(i, j);
    var low, high := Mid(i), Mid(j - 1);
    NotBoth(x, low, high, i, j);
    if j <= top {
      assert x <= low as real && (low as real == x ==> i % 2 == 0);
    }
  }

  /** At most one double is the rounding of a number. */
  lemma RoundingUnique(x: real, i: nat, j: nat)
    requires RoundsTo(x, i) && RoundsTo(x, j)
    ensures i == j
  {
    if i < j {
      Exclusive(x, i, j, INFINITY);
    } else if j < i {
      Exclusive(x, j, i, INFINITY);
    }
  }

  lemma MidBelow(i: nat, j: nat)
    requires i < j
    ensures Mid(i) < 2 * V(j)
  {
    Increasing(i, j);
    if i + 1 < j {
      Increasing(i + 1, j);
    }
  }

  lemma MidAbove(i: nat)
    ensures 2 * V(i) < Mid(i)
  {
    Increasing(i, i + 1);
  }

  function Lesser(i: nat, top: nat): nat {
    if i > top then top else i
  }

  /**
   * Rounding between neighbours: up past the halfway point, and at it from an
   * odd double. Whatever lies at or above the top rounds to the top.
   */
  lemma RoundBetween(x: real, b: nat, up: bool, top: nat)
    requires (2 * V(b)) as real <= x < Mid(b + 1) as real
    requires up <==> Mid(b) as real < x || (Mid(b) as real == x && b % 2 == 1)
    ensures RoundsUpTo(x, Lesser(if up then b + 1 else b, top), top)
  {
    if b < top {
      MidAbove(b + 1);
      if b > 0 {
        MidBelow(b - 1, b);
      }
    } else if top > 0 {
      MidBelow(top - 1, b);
    }
  }

  /** All doubles below `i` are too small for a number to be rounded to them. */
  predicate PastBelow(x: real, i: nat) {
    if i == 0 then x >= 0.0 else Mid(i - 1) as real <= x && (Mid(i - 1) as real == x ==> i % 2 == 0)
  }

  predicate StopsAt(x: real, i: nat) {
    i >= INFINITY || x < Mid(i) as real || (x == Mid(i) as real && i % 2 == 0)
  }

  lemma Stops(x: real, i: nat)
    requires i <= INFINITY && PastBelow(x, i)
    ensures if StopsAt(x, i) then RoundsTo(x, i) else i < INFINITY && PastBelow(x, i + 1)
  {
    hide Mid;
  }

  /** The double that a number rounds to, found by going up from double `i`. */
  function RoundedFrom(x: real, i: nat): (r: nat)
    requires i <= INFINITY && PastBelow(x, i)
    ensures r <= INFINITY && RoundsTo(x, r)
    decreases INFINITY - i
  {
    hide PastBelow, StopsAt, RoundsTo;
    Stops(x, i);
    if StopsAt(x, i) then i else RoundedFrom(x, i + 1)
  }

  function Rounded(x: real): (r: nat)
    requires x >= 0.0
    ensures r <= INFINITY && RoundsTo(x, r)
  {
    RoundedFrom(x, 0)
  }

  /** Whatever lies between two numbers that round alike rounds like them. */
  lemma RoundingConvex(x: real, y: real, z: real, i: nat)
    requires RoundsTo(x, i) && RoundsTo(z, i) && x <= y <= z
    ensures RoundsTo(y, i)
  {
    ConvexUpTo(x, y, z, i, INFINITY);
  }

  lemma ConvexUpTo(x: real, y: real, z: real, i: nat, top: nat)
    requires RoundsUpTo(x, i, top) && RoundsUpTo(z, i, top) && x <= y <= z
    ensures RoundsUpTo(y, i, top)
  {
    hide Mid;
  }

  /** The number n / d in units of 2^-1075. */
  function Scaled(n: nat, d: nat): real
    requires d > 0
  {
    Times(n, 2, 1075) as real / d as real
  }

  /** The decimal number digits * 10^exponent in units of 2^-1075. */
  function DecimalValue(digits: nat, exponent: int): real {
    if exponent >= 0 then Scaled(Times(digits, 10, exponent), 1) else Scaled(digits, Pow(10, -exponent))
  }

  /** Comparing an integer with a fraction by cross-multiplication. */
  lemma Ratio(k: nat, a: nat, d: nat)
    requires d > 0
    ensures k as real < a as real / d as real <==> k * d < a
    ensures k as real == a as real / d as real <==> k * d == a
  {
    var x, y := k as real, a as real / d as real;
    assert (k * d) as real == x * d as real;
    assert a as real == y * d as real;
    if x < y {
      assert x * d as real < y * d as real;
    } else if x > y {
      assert x * d as real > y * d as real;
    }
  }

  // ------------------------------------------------------------------ powers of two of either sign

  function Two(e: int): (p: real)
    ensures p > 0.0
  {
    if e >= 0 then Pow(2, e) as real else 1.0 / Pow(2, -e) as real
  }

  lemma TwoNext(e: int)
    ensures Two(e + 1) == 2.0 * Two(e)
  {
    if e < 0 {
      assert Pow(2, -e) == 2 * Pow(2, -e - 1);
    }
  }

  lemma {:induction false} TwoAdd(e: int, f: int)
    ensures Two(e + f) == Two(e) * Two(f)
    decreases if f >= 0 then f else -f
  {
    hide Two;
    if f > 0 {
      TwoAdd(e, f - 1);
      TwoNext(e + f - 1);
      TwoNext(f - 1);
    } else if f < 0 {
      TwoAdd(e, f + 1);
      TwoNext(e + f);
      TwoNext(f);
    } else {
      TwoZero();
    }
  }

  lemma TwoZero()
    ensures Two(0) == 1.0
  {
  }
}
