/**
 * Values of little-endian limb sequences, and the one-limb steps of the
 * grade-school algorithms on them.
 */
module Limbs {
  import opened Powers
  import opened Bits

  type Limb = x: int | 0 <= x < 0x1_0000_0000_0000_0000 witness 0

  /** The weight of limb `i`. */
  function Weight(i: nat): (w: nat)
    ensures w > 0
  {
    if i == 0 then 1 else 0x1_0000_0000_0000_0000 * Weight(i - 1)
  }

  function Val(s: seq<Limb>): nat {
    if s == [] then 0 else Val(s[..|s| - 1]) + s[|s| - 1] * Weight(|s| - 1)
  }

  predicate Normalized(s: seq<Limb>) {
    s != [] ==> s[|s| - 1] != 0
  }

  lemma WeightNext(i: nat)
    ensures Weight(i + 1) == 0x1_0000_0000_0000_0000 * Weight(i)
  {
  }

  lemma {:induction false} WeightAdd(i: nat, j: nat)
    ensures Weight(i + j) == Weight(i) * Weight(j)
  {
    if i > 0 {
      WeightAdd(i - 1, j);
      WeightNext(i - 1 + j);
      Associate(0x1_0000_0000_0000_0000, Weight(i - 1), Weight(j));
    }
  }

  lemma {:induction false} WeightIsPow2(i: nat)
    ensures Weight(i) == Pow(2, 64 * i)
  {
    if i > 0 {
      WeightIsPow2(i - 1);
      PowAdd(2, 64, 64 * (i - 1));
      Pow2Word();
    }
  }

  lemma Pow2Word()
    ensures Pow(2, 64) == 0x1_0000_0000_0000_0000
  {
    assert Pow(2, 8) == 256;
    PowMultiply(2, 8, 8);
    assert Pow(256, 4) == 0x1_0000_0000;
    PowAdd(256, 4, 4);
  }

  lemma WeightMonotone(i: nat, j: nat)
    requires i <= j
    ensures Weight(i) <= Weight(j)
  {
    WeightAdd(i, j - i);
    MulMonotone(Weight(i), Weight(i), 1, Weight(j - i));
  }

  lemma ValSnoc(s: seq<Limb>, x: Limb)
    ensures Val(s + [x]) == Val(s) + x * Weight(|s|)
  {
    assert (s + [x])[..|s|] == s;
  }

  lemma ValOne(x: Limb)
    ensures Val([x]) == x
  {
    ValSnoc([], x);
    assert [] + [x] == [x];
  }

  lemma {:induction false} ValConcat(s: seq<Limb>, t: seq<Limb>)
    ensures Val(s + t) == Val(s) + Weight(|s|) * Val(t)
  {
    hide Val, Weight;
    if t == [] {
      ValEmpty();
      assert s + t == s;
    } else {
      var u, x := t[..|t| - 1], t[|t| - 1];
      ValConcat(s, u);
      assert s + t == (s + u) + [x];
      assert t == u + [x];
      ValSnoc(s + u, x);
      ValSnoc(u, x);
      WeightAdd(|s|, |u|);
      SnocProduct(Weight(|s|), Val(u), x, Weight(|u|), Val(t), Weight(|s| + |u|));
    }
  }

  lemma ValEmpty()
    ensures Val([]) == 0
  {
  }

  lemma SnocProduct(w: nat, v: nat, x: nat, y: nat, vt: nat, wy: nat)
    requires vt == v + x * y && wy == w * y
    ensures w * vt == w * v + x * wy
  {
  }

  lemma {:induction false} ValBound(s: seq<Limb>)
    ensures Val(s) < Weight(|s|)
  {
    if s != [] {
      var u, x, w := s[..|s| - 1], s[|s| - 1], Weight(|s| - 1);
      ValBound(u);
      MulMonotone(x, 0xFFFF_FFFF_FFFF_FFFF, w, w);
    }
  }

  lemma ValLower(s: seq<Limb>)
    requires s != [] && Normalized(s)
    ensures Val(s) >= Weight(|s| - 1)
  {
    MulMonotone(1, s[|s| - 1], Weight(|s| - 1), Weight(|s| - 1));
  }

  lemma ValZeroTop(s: seq<Limb>)
    requires s != [] && s[|s| - 1] == 0
    ensures Val(s) == Val(s[..|s| - 1])
  {
  }

  lemma {:induction false} ValZeros(s: seq<Limb>)
    requires forall i :: 0 <= i < |s| ==> s[i] == 0
    ensures Val(s) == 0
  {
    if s != [] {
      ValZeros(s[..|s| - 1]);
    }
  }

  /** A limb sequence is worth zero exactly when every limb is zero. */
  lemma {:induction false} ValIsZero(s: seq<Limb>)
    ensures Val(s) == 0 <==> forall i :: 0 <= i < |s| ==> s[i] == 0
  {
    if s != [] {
      var u := s[..|s| - 1];
      ValIsZero(u);
      if s[|s| - 1] != 0 {
        ValLower(s);
      } else {
        assert forall i :: 0 <= i < |u| ==> u[i] == s[i];
      }
    }
  }

  /** A longer normalized sequence is worth more. */
  lemma LongerIsMore(s: seq<Limb>, t: seq<Limb>)
    requires Normalized(t) && |s| < |t|
    ensures Val(s) < Val(t)
  {
    ValBound(s);
    ValLower(t);
    WeightMonotone(|s|, |t| - 1);
  }

  /** With equal limbs above position `k`, limb `k` decides. */
  lemma TopLimbDecides(s: seq<Limb>, t: seq<Limb>, k: nat)
    requires |s| == |t| && k < |s| && s[k] < t[k]
    requires s[k + 1..] == t[k + 1..]
    ensures Val(s) < Val(t)
  {
    assert s == (s[..k] + [s[k]]) + s[k + 1..];
    assert t == (t[..k] + [t[k]]) + t[k + 1..];
    ValConcat(s[..k] + [s[k]], s[k + 1..]);
    ValConcat(t[..k] + [t[k]], t[k + 1..]);
    ValSnoc(s[..k], s[k]);
    ValSnoc(t[..k], t[k]);
    ValBound(s[..k]);
    MulMonotone(s[k] + 1, t[k], Weight(k), Weight(k));
    assert (s[k] + 1) * Weight(k) == s[k] * Weight(k) + Weight(k);
  }

  function Low(z: int): (r: Limb) {
    z % 0x1_0000_0000_0000_0000
  }

  function High(z: int): int {
    z / 0x1_0000_0000_0000_0000
  }

  lemma Halves(z: int)
    ensures z == Low(z) + 0x1_0000_0000_0000_0000 * High(z)
  {
  }

  /** Multiplying two limbs and adding a third never needs a third word. */
  lemma ProductFits(x: Limb, y: Limb, carry: Limb)
    ensures 0 <= High(x * y + carry) <= 0xFFFF_FFFF_FFFF_FFFF
  {
    MulMonotone(x, 0xFFFF_FFFF_FFFF_FFFF, y, 0xFFFF_FFFF_FFFF_FFFF);
    HighFits(x * y + carry);
  }

  lemma HighFits(z: int)
    requires 0 <= z <= 0xFFFF_FFFF_FFFF_FFFF * 0xFFFF_FFFF_FFFF_FFFF + 0xFFFF_FFFF_FFFF_FFFF
    ensures 0 <= High(z) <= 0xFFFF_FFFF_FFFF_FFFF
  {
  }

  lemma ValHead(s: seq<Limb>)
    requires s != []
    ensures Val(s) == s[0] + 0x1_0000_0000_0000_0000 * Val(s[1..])
  {
    assert s == [s[0]] + s[1..];
    ValConcat([s[0]], s[1..]);
    ValOne(s[0]);
    assert Weight(1) == 0x1_0000_0000_0000_0000;
  }

  lemma ValCons(x: Limb, s: seq<Limb>)
    ensures Val([x] + s) == x + 0x1_0000_0000_0000_0000 * Val(s)
  {
    ValHead([x] + s);
    assert ([x] + s)[1..] == s;
  }

  lemma NormalizedByValue(s: seq<Limb>)
    requires s != [] && Val(s) >= Weight(|s| - 1)
    ensures Normalized(s)
  {
    if s[|s| - 1] == 0 {
      ValBound(s[..|s| - 1]);
    }
  }

  /** A normalized number below the capacity fits in it. */
  lemma FitsByValue(s: seq<Limb>, n: nat)
    requires Normalized(s) && Val(s) < Weight(n)
    ensures |s| <= n
  {
    if |s| > n {
      ValLower(s);
      WeightMonotone(n, |s| - 1);
    }
  }

  /** `s` with a carry added at the bottom and rippled up. */
  function Ripple(s: seq<Limb>, carry: Limb): seq<Limb> {
    if carry == 0 then s
    else if s == [] then [carry]
    else [Low(s[0] + carry)] + Ripple(s[1..], High(s[0] + carry))
  }

  lemma {:induction false} RippleValue(s: seq<Limb>, carry: Limb)
    ensures Val(Ripple(s, carry)) == Val(s) + carry
  {
    if carry != 0 {
      if s == [] {
        ValOne(carry);
      } else {
        var z := s[0] + carry;
        RippleValue(s[1..], High(z));
        ValCons(Low(z), Ripple(s[1..], High(z)));
        ValHead(s);
        Halves(z);
      }
    }
  }

  /** Where a ripple ends: the carry is used up, or becomes the new top limb. */
  lemma RippleDone(done: seq<Limb>, rest: seq<Limb>, carry: Limb)
    requires carry == 0 || rest == []
    ensures done + Ripple(rest, carry) == done + rest + if carry == 0 then [] else [carry]
  {
  }

  /** Rippling lengthens a number only when the carry leaves its top, as its new top limb. */
  lemma {:induction false} RippleShape(s: seq<Limb>, carry: Limb)
    ensures |s| <= |Ripple(s, carry)| <= |s| + 1
    ensures |Ripple(s, carry)| > |s| ==> Normalized(Ripple(s, carry))
  {
    if carry != 0 && s != [] {
      var z := s[0] + carry;
      RippleShape(s[1..], High(z));
    }
  }

  /** Adds `t`, not longer than `s`, and a carry. */
  function AddBoth(s: seq<Limb>, t: seq<Limb>, carry: Limb): seq<Limb>
    requires |t| <= |s| && carry <= 1
    decreases t
  {
    if t == [] then Ripple(s, carry)
    else
      var z := s[0] + t[0] + carry;
      [Low(z)] + AddBoth(s[1..], t[1..], High(z))
  }

  lemma {:induction false} AddBothValue(s: seq<Limb>, t: seq<Limb>, carry: Limb)
    requires |t| <= |s| && carry <= 1
    ensures Val(AddBoth(s, t, carry)) == Val(s) + Val(t) + carry
    decreases t
  {
    if t == [] {
      RippleValue(s, carry);
    } else {
      var z := s[0] + t[0] + carry;
      AddBothValue(s[1..], t[1..], High(z));
      ValCons(Low(z), AddBoth(s[1..], t[1..], High(z)));
      ValHead(s);
      ValHead(t);
      Halves(z);
    }
  }

  lemma {:induction false} AddBothShape(s: seq<Limb>, t: seq<Limb>, carry: Limb)
    requires |t| <= |s| && carry <= 1
    ensures |s| <= |AddBoth(s, t, carry)| <= |s| + 1
    ensures |AddBoth(s, t, carry)| > |s| ==> Normalized(AddBoth(s, t, carry))
    decreases t
  {
    if t == [] {
      RippleShape(s, carry);
    } else {
      AddBothShape(s[1..], t[1..], High(s[0] + t[0] + carry));
    }
  }

  /** Multiplies by one limb, adding a carry at the bottom. */
  function Scale(s: seq<Limb>, y: Limb, carry: Limb): seq<Limb> {
    if s == [] then
      if carry == 0 then [] else [carry]
    else
      ProductFits(s[0], y, carry);
      var z := s[0] * y + carry;
      [Low(z)] + Scale(s[1..], y, High(z))
  }

  lemma ScaleDone(done: seq<Limb>, rest: seq<Limb>, y: Limb, carry: Limb)
    requires rest == []
    ensures done + Scale(rest, y, carry) == done + rest + if carry == 0 then [] else [carry]
  {
  }

  lemma {:induction false} ScaleValue(s: seq<Limb>, y: Limb, carry: Limb)
    ensures Val(Scale(s, y, carry)) == Val(s) * y + carry
  {
    if s == [] {
      if carry != 0 {
        ValOne(carry);
      }
    } else {
      ProductFits(s[0], y, carry);
      var z := s[0] * y + carry;
      ScaleValue(s[1..], y, High(z));
      ValCons(Low(z), Scale(s[1..], y, High(z)));
      ValHead(s);
      Halves(z);
      ScaleStep(s[0], Val(s[1..]), y, carry, Low(z), High(z));
    }
  }

  lemma ScaleStep(x: nat, v: nat, y: nat, carry: nat, lo: nat, hi: nat)
    requires x * y + carry == lo + 0x1_0000_0000_0000_0000 * hi
    ensures lo + 0x1_0000_0000_0000_0000 * (v * y + hi) == (x + 0x1_0000_0000_0000_0000 * v) * y + carry
  {
  }

  lemma {:induction false} ScaleShape(s: seq<Limb>, y: Limb, carry: Limb)
    ensures |s| <= |Scale(s, y, carry)| <= |s| + 1
    ensures |Scale(s, y, carry)| > |s| ==> Normalized(Scale(s, y, carry))
  {
    if s != [] {
      ProductFits(s[0], y, carry);
      ScaleShape(s[1..], y, High(s[0] * y + carry));
    }
  }

  /** A nonzero multiple of a normalized number is normalized. */
  lemma ScaleNormalized(s: seq<Limb>, y: Limb, carry: Limb)
    requires Normalized(s) && y != 0
    ensures Normalized(Scale(s, y, carry))
  {
    ScaleShape(s, y, carry);
    ScaleValue(s, y, carry);
    if s != [] && |Scale(s, y, carry)| == |s| {
      ValLower(s);
      MulMonotone(Val(s), Val(s), 1, y);
      NormalizedByValue(Scale(s, y, carry));
    }
  }

  /** `s` filled with zero limbs up to a length. */
  function Extend(s: seq<Limb>, n: nat): (r: seq<Limb>)
    ensures |r| == if |s| < n then n else |s|
  {
    if |s| < n then s + seq(n - |s|, _ => 0) else s
  }

  lemma ExtendValue(s: seq<Limb>, n: nat)
    ensures Val(Extend(s, n)) == Val(s)
  {
    if |s| < n {
      var zeros: seq<Limb> := seq(n - |s|, _ => 0);
      ValConcat(s, zeros);
      ValZeros(zeros);
    }
  }

  /** `t` added into `s` from limb `start` upwards. */
  function Sum(s: seq<Limb>, t: seq<Limb>, start: nat): seq<Limb> {
    var base := Extend(s, |t| + start);
    base[..start] + AddBoth(base[start..], t, 0)
  }

  /** Adding into the upper limbs adds at their weight. */
  lemma {:induction false} AddAbove(low: seq<Limb>, high: seq<Limb>, t: seq<Limb>)
    requires |t| <= |high|
    ensures Val(low + AddBoth(high, t, 0)) == Val(low + high) + Weight(|low|) * Val(t)
  {
    ValConcat(low, high);
    AddBothValue(high, t, 0);
    ValConcat(low, AddBoth(high, t, 0));
    DistributeSum(Weight(|low|), Val(high), Val(t), Val(AddBoth(high, t, 0)));
  }

  lemma DistributeSum(w: nat, u: nat, v: nat, x: nat)
    requires x == u + v
    ensures w * x == w * u + w * v
  {
  }

  lemma SumValue(s: seq<Limb>, t: seq<Limb>, start: nat)
    ensures Val(Sum(s, t, start)) == Val(s) + Weight(start) * Val(t)
  {
    var base := Extend(s, |t| + start);
    ExtendValue(s, |t| + start);
    assert base == base[..start] + base[start..];
    AddAbove(base[..start], base[start..], t);
  }

  /** The sum's length: it grows past its inputs only by a top limb. */
  lemma SumShape(s: seq<Limb>, t: seq<Limb>, start: nat)
    ensures var n := |Extend(s, |t| + start)|;
      n <= |Sum(s, t, start)| <= n + 1 && (|Sum(s, t, start)| > n ==> Normalized(Sum(s, t, start)))
  {
    var base := Extend(s, |t| + start);
    AddBothShape(base[start..], t, 0);
    var top := AddBoth(base[start..], t, 0);
    if top != [] {
      assert Sum(s, t, start)[|Sum(s, t, start)| - 1] == top[|top| - 1];
    }
  }

  lemma ShiftedLower(t: seq<Limb>, start: nat, n: nat)
    requires Normalized(t) && start <= n < |t| + start
    ensures Weight(start) * Val(t) >= Weight(n)
  {
    ValLower(t);
    WeightAdd(start, |t| - 1);
    MulMonotone(Weight(start), Weight(start), Weight(|t| - 1), Val(t));
    WeightMonotone(n, start + |t| - 1);
  }

  /** A sum below the capacity fits in it. */
  lemma {:induction false} SumFits(s: seq<Limb>, t: seq<Limb>, start: nat, n: nat)
    requires |s| <= n && start <= n && Normalized(t)
    requires Val(s) + Weight(start) * Val(t) < Weight(n)
    ensures |Sum(s, t, start)| <= n
  {
    SumShape(s, t, start);
    SumValue(s, t, start);
    if |t| + start > n {
      ShiftedLower(t, start, n);
    } else if |Sum(s, t, start)| > n {
      FitsByValue(Sum(s, t, start), n);
    }
  }

  lemma PrefixSnoc(s: seq<Limb>, i: nat)
    requires i < |s|
    ensures Val(s[..i + 1]) == Val(s[..i]) + s[i] * Weight(i)
  {
    assert s[..i + 1] == s[..i] + [s[i]];
    ValSnoc(s[..i], s[i]);
  }

  lemma PrefixBelow(s: seq<Limb>, i: nat)
    requires i <= |s|
    ensures Val(s[..i]) <= Val(s)
  {
    assert s == s[..i] + s[i..];
    ValConcat(s[..i], s[i..]);
    MulMonotone(0, Weight(i), 0, Val(s[i..]));
  }

  /** One row of the grade-school product, and how far the rows so far can reach. */
  lemma Row(s: seq<Limb>, t: seq<Limb>, i: nat)
    requires i < |t|
    ensures var row := Val(s) * t[i];
      && row <= Val(s) * Val(t)
      && Val(s) * Val(t[..i]) + Weight(i) * row == Val(s) * Val(t[..i + 1]) <= Val(s) * Val(t)
  {
    PrefixSnoc(t, i);
    PrefixBelow(t, i + 1);
    MulMonotone(t[i], t[i], 1, Weight(i));
    MulMonotone(Val(s), Val(s), t[i], Val(t));
    MulMonotone(Val(s), Val(s), Val(t[..i + 1]), Val(t));
    RowSum(Val(s), Val(t[..i]), t[i], Weight(i), Val(t[..i + 1]));
  }

  lemma RowSum(s: nat, v: nat, x: nat, w: nat, u: nat)
    requires u == v + x * w
    ensures s * v + w * (s * x) == s * u
  {
    assert w * (s * x) == s * (x * w);
  }

  /** A row below the capacity fits in it. */
  lemma ScaleFits(s: seq<Limb>, y: Limb, n: nat)
    requires |s| <= n && Val(s) * y < Weight(n)
    ensures |Scale(s, y, 0)| <= n
  {
    ScaleShape(s, y, 0);
    ScaleValue(s, y, 0);
    if |Scale(s, y, 0)| > |s| {
      FitsByValue(Scale(s, y, 0), n);
    }
  }

  /** Adding row `i` to the product so far. */
  lemma RowValue(s: seq<Limb>, z: seq<Limb>, y: seq<Limb>, i: nat)
    requires i < |y| && Val(s) == Val(z) * Val(y[..i])
    ensures Val(Sum(s, Scale(z, y[i], 0), i)) == Val(z) * Val(y[..i + 1])
  {
    var row := Scale(z, y[i], 0);
    SumValue(s, row, i);
    ScaleValue(z, y[i], 0);
    assert Val(row) == Val(z) * y[i];
    Row(z, y, i);
  }

  /** ... fits whenever the whole product does. */
  lemma {:induction false} RowFits(s: seq<Limb>, z: seq<Limb>, y: seq<Limb>, i: nat, n: nat)
    requires i < |y| && Val(s) == Val(z) * Val(y[..i])
    requires |s| <= n && |z| <= n && i <= n && Normalized(z) && y[i] != 0
    requires Val(z) * Val(y) < Weight(n)
    ensures |Scale(z, y[i], 0)| <= n && |Sum(s, Scale(z, y[i], 0), i)| <= n
  {
    Row(z, y, i);
    RowValue(s, z, y, i);
    ScaleFits(z, y[i], n);
    ScaleNormalized(z, y[i], 0);
    SumValue(s, Scale(z, y[i], 0), i);
    SumFits(s, Scale(z, y[i], 0), i, n);
  }

  /** The shifts of a 64-bit word. */
  function ShiftLeft(x: Limb, n: nat): Limb {
    Low(x * Pow(2, n))
  }

  function ShiftRight(x: Limb, n: nat): Limb {
    DivSmaller(x, Pow(2, n));
    x / Pow(2, n)
  }

  lemma ShiftZero(n: nat)
    ensures ShiftRight(0, n) == 0
  {
  }

  lemma DivSmaller(x: nat, d: nat)
    requires d > 0
    ensures 0 <= x / d <= x
  {
    var q := x / d;
    assert x == q * d + x % d;
    MulMonotone(q, q, 1, d);
  }

  /** Splitting a word at bit 64 - n: the part shifted out, and the part that stays in. */
  lemma ShiftSplit(x: Limb, n: nat)
    requires n <= 64
    ensures x * Pow(2, n) == ShiftRight(x, 64 - n) * 0x1_0000_0000_0000_0000 + ShiftLeft(x, n)
    ensures ShiftLeft(x, n) + Pow(2, n) <= 0x1_0000_0000_0000_0000
    ensures ShiftRight(x, 64 - n) < Pow(2, n)
  {
    PowAdd(2, n, 64 - n);
    Pow2Word();
    SplitWord(x, Pow(2, n), Pow(2, 64 - n));
  }

  lemma SplitWord(x: nat, p: nat, q: nat)
    requires p > 0 && q > 0 && p * q == 0x1_0000_0000_0000_0000 && x < 0x1_0000_0000_0000_0000
    ensures x * p == (x / q) * 0x1_0000_0000_0000_0000 + Low(x * p)
    ensures Low(x * p) + p <= 0x1_0000_0000_0000_0000
    ensures x / q < p
  {
    DivMod(x, q);
    var h, r := x / q, x % q;
    SplitProduct(x, p, q, h, r);
    TopPart(p, q, r);
    LowOf(h, r * p);
    CancelLess(h, p, q);
  }

  lemma TopPart(p: nat, q: nat, r: nat)
    requires r < q
    ensures 0 <= r * p && r * p + p <= p * q
  {
    MulMonotone(r + 1, q, p, p);
    assert (r + 1) * p == r * p + p;
  }

  lemma DivMod(x: nat, q: nat)
    requires q > 0
    ensures x == (x / q) * q + x % q && 0 <= x % q < q && 0 <= x / q
  {
  }

  lemma SplitProduct(x: nat, p: nat, q: nat, h: nat, r: nat)
    requires x == h * q + r && p * q == 0x1_0000_0000_0000_0000
    ensures x * p == h * 0x1_0000_0000_0000_0000 + r * p
  {
    assert (h * q + r) * p == (h * q) * p + r * p;
    assert (h * q) * p == h * (p * q);
  }

  lemma LowOf(h: nat, r: nat)
    requires r < 0x1_0000_0000_0000_0000
    ensures Low(h * 0x1_0000_0000_0000_0000 + r) == r
    ensures High(h * 0x1_0000_0000_0000_0000 + r) == h
  {
  }

  /** Shifting a word and or-ing in the bits shifted out below is a multiplication with carry. */
  lemma ShiftIsScale(x: Limb, n: nat, carry: Limb)
    requires n <= 64 && carry < Pow(2, n)
    ensures ShiftLeft(x, n) + carry < 0x1_0000_0000_0000_0000
    ensures Low(x * Pow(2, n) + carry) == ShiftLeft(x, n) + carry
    ensures High(x * Pow(2, n) + carry) == ShiftRight(x, 64 - n)
  {
    hide Pow, ShiftLeft, ShiftRight, Low, High;
    ShiftSplit(x, n);
    LowOf(ShiftRight(x, 64 - n), ShiftLeft(x, n) + carry);
  }

  /** The leading zeros of a word. */
  function LeadingZeros(x: Limb): (n: nat)
    requires x != 0
    ensures n < 64
  {
    WordBits(x);
    64 - BitLen(x)
  }

  lemma WordBits(x: Limb)
    ensures BitLen(x) <= 64
    ensures x != 0 ==> BitLen(x) > 0
  {
    BitLenBounds(x);
    Pow2Word();
    if BitLen(x) > 64 {
      PowMonotone(2, 64, BitLen(x) - 1);
    }
  }

  lemma HalfWord()
    ensures Pow(2, 63) == 0x8000_0000_0000_0000 && Pow(2, 64) == 0x1_0000_0000_0000_0000
  {
    Pow2Word();
    assert Pow(2, 64) == 2 * Pow(2, 63);
  }

  lemma TopBitSet(x: nat, k: nat, l: nat)
    requires k + l == 64 && l > 0 && Pow(2, l - 1) <= x < Pow(2, l)
    ensures 0x8000_0000_0000_0000 <= x * Pow(2, k) < 0x1_0000_0000_0000_0000
  {
    HalfWord();
    hide Pow;
    PowAdd(2, l, k);
    PowAdd(2, l - 1, k);
    Bracket(Pow(2, l - 1), x, Pow(2, l), Pow(2, k), 0);
  }

  lemma LowIs(z: nat)
    requires z < 0x1_0000_0000_0000_0000
    ensures Low(z) == z
  {
  }

  /** Shifting out the leading zeros loses nothing and sets the top bit. */
  lemma Justify(x: Limb)
    requires x != 0
    ensures ShiftLeft(x, LeadingZeros(x)) == x * Pow(2, LeadingZeros(x))
    ensures 0x8000_0000_0000_0000 <= x * Pow(2, LeadingZeros(x)) < 0x1_0000_0000_0000_0000
  {
    hide Pow, BitLen, Low;
    var k, l := LeadingZeros(x), BitLen(x);
    BitLenBounds(x);
    WordBits(x);
    TopBitSet(x, k, l);
    LowIs(x * Pow(2, k));
  }

  /** The bit length of a normalized number. */
  lemma ValBits(s: seq<Limb>)
    requires s != [] && Normalized(s)
    ensures BitLen(Val(s)) == 64 * |s| - LeadingZeros(s[|s| - 1])
  {
    var n, top := |s| - 1, s[|s| - 1];
    var l := BitLen(top);
    WordBits(top);
    BitLenBounds(top);
    WeightIsPow2(n);
    ValBound(s[..n]);
    PowAdd(2, l - 1, 64 * n);
    PowAdd(2, l, 64 * n);
    Bracket(Pow(2, l - 1), top, Pow(2, l), Weight(n), Val(s[..n]));
    BitLenIs(Val(s), 64 * n + l);
  }

  /** `hi` is the number's leading 64 bits, and `truncated` says whether a lower bit is set. */
  ghost predicate TopBits(v: nat, hi: nat, truncated: bool) {
    var unit := Pow(2, BitLen(v));
    && hi * unit <= v * 0x1_0000_0000_0000_0000 < hi * unit + unit
    && (truncated <==> hi * unit != v * 0x1_0000_0000_0000_0000)
  }

  lemma TopBitsBy(s: seq<Limb>, hi: nat, below: nat)
    requires s != [] && Normalized(s)
    requires Val(s) * Pow(2, LeadingZeros(s[|s| - 1])) == hi * Weight(|s| - 1) + below
    requires below < Weight(|s| - 1)
    ensures TopBits(Val(s), hi, below != 0)
  {
    var k, w := LeadingZeros(s[|s| - 1]), Weight(|s| - 1);
    var p, q := Pow(2, k), Pow(2, 64 - k);
    PowAdd(2, k, 64 - k);
    Pow2Word();
    ValBits(s);
    WeightIsPow2(|s| - 1);
    PowAdd(2, 64 * (|s| - 1), 64 - k);
    RaiseBracket(Val(s), p, q, hi, w, below);
  }

  lemma RaiseBracket(v: nat, p: nat, q: nat, hi: nat, w: nat, below: nat)
    requires v * p == hi * w + below && below < w && q > 0 && p * q == 0x1_0000_0000_0000_0000
    ensures v * 0x1_0000_0000_0000_0000 == hi * (w * q) + below * q
    ensures 0 <= below * q < w * q
    ensures below * q == 0 <==> below == 0
  {
    Associate(v, p, q);
    MulMonotone(0, hi, 0, w);
    Distribute(hi * w, below, q);
    Associate(hi, w, q);
    MulMonotone(below + 1, w, q, q);
    Distribute(below, 1, q);
    if below != 0 {
      MulMonotone(1, below, 1, q);
    }
  }

  lemma TopBitsOne(s: seq<Limb>)
    requires |s| == 1 && s[0] != 0
    ensures TopBits(Val(s), ShiftLeft(s[0], LeadingZeros(s[0])), false)
  {
    assert s == [s[0]];
    ValOne(s[0]);
    Justify(s[0]);
    assert Weight(0) == 1;
    TopBitsBy(s, ShiftLeft(s[0], LeadingZeros(s[0])), 0);
  }

  /** The two top limbs give the leading bits; a lower bit is set when one is shifted out or remains below. */
  lemma TopBitsTwo(s: seq<Limb>)
    requires |s| >= 2 && Normalized(s)
    ensures var top, next := s[|s| - 1], s[|s| - 2];
      var k := LeadingZeros(top);
      TopBits(Val(s), ShiftLeft(top, k) + ShiftRight(next, 64 - k), ShiftLeft(next, k) != 0 || Val(s[..|s| - 2]) != 0)
  {
    var top, next, low, n := s[|s| - 1], s[|s| - 2], s[..|s| - 2], |s| - 2;
    var k := LeadingZeros(top);
    var hi, out := ShiftLeft(top, k) + ShiftRight(next, 64 - k), ShiftLeft(next, k);
    assert s[..|s| - 1] == low + [next];
    ValSnoc(low, next);
    WeightNext(n);
    ValBound(low);
    Justify(top);
    ShiftSplit(next, k);
    var below := out * Weight(n) + Val(low) * Pow(2, k);
    TwoLimbs(Val(s), top, next, Val(low), Weight(n), Pow(2, k), ShiftRight(next, 64 - k), out);
    TopBitsBy(s, hi, below);
  }

  lemma TwoLimbs(v: nat, top: nat, next: nat, low: nat, w: nat, p: nat, over: nat, out: nat)
    requires v == low + next * w + top * (0x1_0000_0000_0000_0000 * w)
    requires next * p == over * 0x1_0000_0000_0000_0000 + out && out + p <= 0x1_0000_0000_0000_0000
    requires low < w && p > 0
    ensures v * p == (top * p + over) * (0x1_0000_0000_0000_0000 * w) + (out * w + low * p)
    ensures 0 <= out * w + low * p < 0x1_0000_0000_0000_0000 * w
    ensures out * w + low * p != 0 <==> out != 0 || low != 0
  {
    var b := 0x1_0000_0000_0000_0000;
    TwoLimbsProduct(v, top, next, low, w, p, over, out, b * w);
    MulMonotone(low + 1, w, p, p);
    assert (low + 1) * p == low * p + p;
    MulMonotone(out + p, b, w, w);
    assert (out + p) * w == out * w + p * w;
    MulMonotone(0, out, 0, w);
    if out != 0 {
      MulMonotone(1, out, 1, w);
    }
    if low != 0 {
      MulMonotone(1, low, 1, p);
    }
  }

  lemma TwoLimbsProduct(v: nat, top: nat, next: nat, low: nat, w: nat, p: nat, over: nat, out: nat, u: nat)
    requires v == low + next * w + top * u && u == 0x1_0000_0000_0000_0000 * w
    requires next * p == over * 0x1_0000_0000_0000_0000 + out
    ensures v * p == (top * p + over) * u + (out * w + low * p)
  {
    assert v * p == low * p + (next * w) * p + (top * u) * p;
    assert (next * w) * p == (next * p) * w == over * u + out * w;
    assert (top * u) * p == (top * p) * u;
  }

  lemma SmallPow2(n: nat)
    requires n < 64
    ensures 1 <= Pow(2, n) < 0x1_0000_0000_0000_0000
  {
    PowLess(2, n, 64);
    Pow2Word();
  }

  function ZeroLimbs(n: nat): (s: seq<Limb>)
    ensures |s| == n && forall i :: 0 <= i < n ==> s[i] == 0
  {
    seq(n, _ => 0)
  }

  /** Moving the limbs up by `n` places. */
  function Raise(s: seq<Limb>, n: nat): seq<Limb> {
    if s == [] then s else ZeroLimbs(n) + s
  }

  lemma {:induction false} RaiseValue(s: seq<Limb>, n: nat)
    ensures Val(Raise(s, n)) == Val(s) * Pow(2, 64 * n)
    ensures Normalized(s) ==> Normalized(Raise(s, n))
  {
    hide Pow, Val, Weight, ZeroLimbs;
    if s == [] {
      NoLimbs(Pow(2, 64 * n));
    } else {
      ValZeros(ZeroLimbs(n));
      ValConcat(ZeroLimbs(n), s);
      WeightIsPow2(n);
    }
  }

  lemma NoLimbs(f: nat)
    ensures Val([]) * f == 0
  {
  }
}
