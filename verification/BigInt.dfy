/**
 * The fixed-capacity big integer of the decimal conversion: 62 limbs of 64
 * bits, updated in place. Every operation reports whether it fitted; the
 * contracts say that success means an exact result, and that whatever fits
 * below 2^3968 succeeds.
 */
module BigInt {
  import opened Powers
  import opened Limbs
  import opened Bits

  /** 5^135, the large step of `Pow5`. */
  const LARGE_POWER_OF_5: seq<Limb> :=
    [1414648277510068013, 9180637584431281687, 4539964771860779200, 10482974169319127550, 198276706040285095]

  const SMALL_POWERS_OF_5: seq<Limb> :=
    [1, 5, 25, 125, 625, 3125, 15625, 78125, 390625, 1953125, 9765625, 48828125, 244140625, 1220703125,
     6103515625, 30517578125, 152587890625, 762939453125, 3814697265625, 19073486328125, 95367431640625,
     476837158203125, 2384185791015625, 11920928955078125, 59604644775390625, 298023223876953125,
     1490116119384765625, 7450580596923828125]

  lemma {:induction false} SmallPowers(i: nat)
    requires i < 28
    ensures SMALL_POWERS_OF_5[i] == Pow(5, i)
  {
    if i > 0 {
      SmallPowers(i - 1);
    }
  }

  lemma LargePower()
    ensures Val(LARGE_POWER_OF_5) == Pow(5, 135)
  {
    SmallPowers(27);
    PowMultiply(5, 27, 5);
    assert Pow(7450580596923828125, 5) == Val(LARGE_POWER_OF_5) by {
      var s := LARGE_POWER_OF_5;
      assert s == s[..4] + [s[4]] && s[..4] == s[..3] + [s[3]] && s[..3] == s[..2] + [s[2]] && s[..2] == [s[0]] + [s[1]];
      ValSnoc(s[..4], s[4]);
      ValSnoc(s[..3], s[3]);
      ValSnoc(s[..2], s[2]);
      ValSnoc([s[0]], s[1]);
      ValOne(s[0]);
    }
  }

  lemma Rewrite(done: seq<Limb>, rest: seq<Limb>, x: Limb)
    requires rest != []
    ensures (done + rest)[|done|] == rest[0]
    ensures (done + rest)[|done| := x] == (done + [x]) + rest[1..]
  {
  }

  lemma RippleNext(done: seq<Limb>, rest: seq<Limb>, carry: Limb)
    requires rest != [] && carry != 0
    ensures var z := rest[0] + carry;
      0 <= High(z) <= 1 && done + Ripple(rest, carry) == (done + [Low(z)]) + Ripple(rest[1..], High(z))
  {
  }

  lemma ScaleNext(done: seq<Limb>, rest: seq<Limb>, y: Limb, carry: Limb, lo: Limb, hi: Limb)
    requires rest != [] && lo == Low(rest[0] * y + carry) && hi == High(rest[0] * y + carry)
    ensures done + Scale(rest, y, carry) == (done + [lo]) + Scale(rest[1..], y, hi)
  {
  }

  /** The two words of a limb product with a carry added. */
  method ScalarMul(x: Limb, y: Limb, carry: Limb) returns (lo: Limb, hi: Limb)
    ensures lo == Low(x * y + carry) && hi == High(x * y + carry)
    ensures x * y + carry == lo + 0x1_0000_0000_0000_0000 * hi
  {
    ProductFits(x, y, carry);
    Halves(x * y + carry);
    lo, hi := Low(x * y + carry), High(x * y + carry);
  }

  /** Addition of two limbs with an overflow flag. */
  method ScalarAdd(x: Limb, y: Limb) returns (z: Limb, overflow: bool)
    ensures x + y == z + if overflow then 0x1_0000_0000_0000_0000 else 0
  {
    z := (x + y) % 0x1_0000_0000_0000_0000;
    overflow := z < x;
  }

  lemma AddNext(done: seq<Limb>, rest: seq<Limb>, y: seq<Limb>, carry: Limb, x: Limb, c: Limb)
    requires 0 < |y| <= |rest| && carry <= 1 && c <= 1
    requires rest[0] + y[0] + carry == x + 0x1_0000_0000_0000_0000 * c
    ensures done + AddBoth(rest, y, carry) == (done + [x]) + AddBoth(rest[1..], y[1..], c)
  {
  }

  /** The product of a number by the low limbs of another. */
  ghost function PartialProduct(z: seq<Limb>, y: seq<Limb>, i: nat): nat
    requires i <= |y|
  {
    Val(z) * Val(y[..i])
  }

  /** The whole product fits, and so does every row of it. */
  ghost predicate WholeFits(z: seq<Limb>, y: seq<Limb>) {
    Normalized(z) && Val(z) * Val(y) < Weight(62)
  }

  lemma FirstRow(z: seq<Limb>, y: seq<Limb>)
    requires |z| <= 62 && y != []
    ensures Val(Scale(z, y[0], 0)) == PartialProduct(z, y, 1)
    ensures WholeFits(z, y) ==> |Scale(z, y[0], 0)| <= 62
  {
    hide Scale, Val, Weight, Normalized;
    Row(z, y, 0);
    ScaleValue(z, y[0], 0);
    ValOne(y[0]);
    assert y[..1] == [y[0]];
    if WholeFits(z, y) {
      ScaleFits(z, y[0], 62);
    }
  }

  /** A step of the multiplication: a row is added, unless its limb is zero. */
  lemma NextRow(s: seq<Limb>, z: seq<Limb>, y: seq<Limb>, i: nat)
    requires i < |y| && Val(s) == PartialProduct(z, y, i) && |s| <= 62 && |z| <= 62 && i <= 62
    ensures Val(if y[i] != 0 then Sum(s, Scale(z, y[i], 0), i) else s) == PartialProduct(z, y, i + 1)
    ensures y[i] != 0 && WholeFits(z, y) ==> |Scale(z, y[i], 0)| <= 62 && |Sum(s, Scale(z, y[i], 0), i)| <= 62
  {
    hide Scale, Sum, Val, Weight, Normalized;
    if y[i] == 0 {
      PrefixSnoc(y, i);
      ZeroRow(Val(y[..i]), Val(y[..i + 1]), Weight(i));
    } else {
      RowValue(s, z, y, i);
      if WholeFits(z, y) {
        RowFits(s, z, y, i, 62);
      }
    }
  }

  lemma ZeroRow(v: nat, u: nat, w: nat)
    requires u == v + 0 * w
    ensures u == v
  {
  }

  lemma WhenFits(z: seq<Limb>, y: seq<Limb>)
    ensures WholeFits(z, y) <==> Normalized(z) && Val(z) * Val(y) < Weight(62)
  {
  }

  lemma WholeProduct(z: seq<Limb>, y: seq<Limb>)
    ensures PartialProduct(z, y, |y|) == Val(z) * Val(y)
  {
    assert y[..|y|] == y;
  }

  lemma ShiftNext(done: seq<Limb>, rest: seq<Limb>, n: nat, carry: Limb)
    requires rest != [] && n < 64 && carry < Pow(2, n) < 0x1_0000_0000_0000_0000
    ensures ShiftLeft(rest[0], n) + carry < 0x1_0000_0000_0000_0000
    ensures ShiftRight(rest[0], 64 - n) < Pow(2, n)
    ensures done + Scale(rest, Pow(2, n), carry) ==
      (done + [ShiftLeft(rest[0], n) + carry]) + Scale(rest[1..], Pow(2, n), ShiftRight(rest[0], 64 - n))
  {
    ShiftIsScale(rest[0], n, carry);
    ShiftSplit(rest[0], n);
    ScaleNext(done, rest, Pow(2, n), carry, ShiftLeft(rest[0], n) + carry, ShiftRight(rest[0], 64 - n));
  }

  /** A step of `Pow5` by 5^k. */
  lemma FiveStep(v: nat, m: nat, k: nat, left: nat)
    requires m == Pow(5, k)
    ensures Times(v, 5, k + left) == Times(v * m, 5, left) >= v * m
  {
    TimesSplit(v, 5, k, left);
    TimesGrows(v * m, 5, left);
  }

  /** `s` shifted by `rem` bits and then by `div` limbs. */
  function Shifted(s: seq<Limb>, rem: nat): seq<Limb>
    requires rem < 64
  {
    SmallPow2(rem);
    if rem == 0 then s else Scale(s, Pow(2, rem), 0)
  }

  lemma ShiftedValue(s: seq<Limb>, rem: nat)
    requires rem < 64 && Normalized(s)
    ensures Normalized(Shifted(s, rem)) && Val(Shifted(s, rem)) == Val(s) * Pow(2, rem)
  {
    SmallPow2(rem);
    ScaleValue(s, Pow(2, rem), 0);
    ScaleNormalized(s, Pow(2, rem), 0);
  }

  lemma ShlMeaning(s: seq<Limb>, rem: nat, div: nat, product: nat)
    requires rem < 64 && Normalized(s) && product == Val(s) * Pow(2, rem + 64 * div)
    ensures Normalized(Raise(Shifted(s, rem), div)) && Val(Raise(Shifted(s, rem), div)) == product
    ensures 0 < Val(s) && product < Weight(62) ==> |Shifted(s, rem)| + div <= 62
  {
    var t := Shifted(s, rem);
    ShiftedValue(s, rem);
    RaiseValue(t, div);
    PowAdd(2, rem, 64 * div);
    Associate(Val(s), Pow(2, rem), Pow(2, 64 * div));
    if 0 < Val(s) && product < Weight(62) {
      if t == [] {
        MulMonotone(1, Val(s), 1, Pow(2, rem));
      }
      FitsByValue(Raise(t, div), 62);
    }
  }

  lemma TenSplits(v: nat, n: nat)
    ensures (v * Pow(5, n)) * Pow(2, n) == v * Pow(10, n)
    ensures v * Pow(5, n) <= v * Pow(10, n)
    ensures v > 0 ==> v * Pow(5, n) > 0
  {
    TenIsTwoFive(n);
    Associate(v, Pow(5, n), Pow(2, n));
    MulMonotone(v * Pow(5, n), v * Pow(5, n), 1, Pow(2, n));
    if v > 0 {
      MulMonotone(1, v, 1, Pow(5, n));
    }
  }

  lemma RippleMeaning(s: seq<Limb>, y: Limb, n: nat)
    requires Normalized(s) && |s| <= n
    ensures Val(Ripple(s, y)) == Val(s) + y && Normalized(Ripple(s, y))
    ensures Val(s) + y < Weight(n) ==> |Ripple(s, y)| <= n
  {
    RippleValue(s, y);
    RippleShape(s, y);
    if s != [] && |Ripple(s, y)| == |s| {
      ValLower(s);
      NormalizedByValue(Ripple(s, y));
    }
    if Val(s) + y < Weight(n) {
      FitsByValue(Ripple(s, y), n);
    }
  }

  lemma RippleWhole(s: seq<Limb>, y: Limb)
    ensures s[..0] + Ripple(s[0..], y) == Ripple(s, y)
  {
    assert s[0..] == s;
  }

  lemma ScaleMeaning(s: seq<Limb>, y: Limb, n: nat)
    requires |s| <= n
    ensures Val(Scale(s, y, 0)) == Val(s) * y
    ensures Normalized(s) && y != 0 ==> Normalized(Scale(s, y, 0))
    ensures Val(s) * y < Weight(n) ==> |Scale(s, y, 0)| <= n
  {
    ScaleValue(s, y, 0);
    if Normalized(s) && y != 0 {
      ScaleNormalized(s, y, 0);
    }
    if Val(s) * y < Weight(n) {
      ScaleFits(s, y, n);
    }
  }

  class Bigint {
    const data: array<Limb>
    var len: nat

    ghost predicate Valid()
      reads this, data
    {
      data.Length == 62 && len <= 62
    }

    function Limbs(): (s: seq<Limb>)
      requires Valid()
      reads this, data
    {
      data[..len]
    }

    ghost function Value(): nat
      requires Valid()
      reads this, data
    {
      Val(Limbs())
    }

    ghost predicate Tidy()
      requires Valid()
      reads this, data
    {
      Normalized(Limbs())
    }

    /** Copies a span, as long as it fits. */
    constructor FromSpan(s: seq<Limb>)
      ensures Valid() && fresh(data)
      ensures Limbs() == if |s| <= 62 then s else []
    {
      data := new Limb[62];
      len := 0;
      new;
      if |s| <= 62 {
        forall i | 0 <= i < |s| {
          data[i] := s[i];
        }
        len := |s|;
      }
    }

    /** A number of one word; zero has no limbs. */
    constructor FromWord(value: Limb)
      ensures Valid() && Tidy() && fresh(data) && Value() == value
    {
      data := new Limb[62];
      len := 1;
      new;
      data[0] := value;
      if value == 0 {
        len := 0;
      }
      ValOne(value);
      assert Limbs() == if value == 0 then [] else [value];
    }

    method TryPush(value: Limb) returns (ok: bool)
      requires Valid()
      modifies this, data
      ensures Valid() && ok == (old(len) < 62)
      ensures Limbs() == if ok then old(Limbs()) + [value] else old(Limbs())
    {
      ok := len < 62;
      if ok {
        data[len] := value;
        len := len + 1;
      }
    }

    /** Sets the length, filling with zero limbs when it grows. */
    method TryReserve(n: nat) returns (ok: bool)
      requires Valid()
      modifies this, data
      ensures Valid() && ok == (n <= 62)
      ensures !ok ==> Limbs() == old(Limbs())
      ensures ok && n <= old(len) ==> Limbs() == old(Limbs())[..n]
      ensures ok && old(len) < n ==> Limbs() == old(Limbs()) + seq(n - old(len), _ => 0)
    {
      ok := n <= 62;
      if ok {
        if n > len {
          forall i | len <= i < n {
            data[i] := 0;
          }
        }
        len := n;
      }
    }

    /** Drops zero limbs from the top. */
    method Normalize()
      requires Valid()
      modifies this
      ensures Valid() && Tidy() && Value() == old(Value())
      ensures old(Tidy()) ==> Limbs() == old(Limbs())
    {
      while len > 0 && data[len - 1] == 0
        invariant Valid() && len <= old(len)
        invariant Value() == old(Value())
        invariant old(Tidy()) ==> len == old(len)
      {
        ghost var was := Limbs();
        ValZeroTop(was);
        len := len - 1;
        assert Limbs() == was[..|was| - 1];
      }
    }

    /** Adds a limb at position `start`. */
    method SmallAddFrom(y: Limb, start: nat) returns (ok: bool)
      requires Valid() && start <= len
      modifies this, data
      ensures Valid()
      ensures var sum := old(Limbs()[..start] + Ripple(Limbs()[start..], y));
        ok == (|sum| <= 62) && (ok ==> Limbs() == sum)
    {
      hide Ripple, Val, Weight, Normalized;
      var index := start;
      var carry: Limb := y;
      ghost var done, rest := Limbs()[..start], Limbs()[start..];
      ghost var sum := done + Ripple(rest, carry);
      while carry != 0 && index < len
        invariant start <= index <= len == |done| + |rest| <= 62 && |done| == index
        invariant data[..len] == done + rest
        invariant sum == done + Ripple(rest, carry)
      {
        ghost var was := data[..len];
        RippleNext(done, rest, carry);
        var z := data[index] + carry;
        Rewrite(done, rest, Low(z));
        data[index] := Low(z);
        assert data[..len] == was[index := Low(z)];
        done, rest := done + [Low(z)], rest[1..];
        carry := High(z);
        index := index + 1;
      }
      RippleDone(done, rest, carry);
      ok := true;
      if carry != 0 {
        ok := TryPush(carry);
      }
    }

    /** Multiplies by one limb. */
    method SmallMul(y: Limb) returns (ok: bool)
      requires Valid()
      modifies this, data
      ensures Valid()
      ensures var product := Scale(old(Limbs()), y, 0);
        ok == (|product| <= 62) && (ok ==> Limbs() == product)
    {
      var carry: Limb := 0;
      var index := 0;
      ghost var done, rest: seq<Limb> := [], Limbs();
      ghost var product := Scale(rest, y, 0);
      while index < len
        invariant 0 <= index <= len == |done| + |rest| <= 62 && |done| == index
        invariant data[..len] == done + rest
        invariant product == done + Scale(rest, y, carry)
      {
        ghost var was := data[..len];
        var lo, hi := ScalarMul(data[index], y, carry);
        Rewrite(done, rest, lo);
        ScaleNext(done, rest, y, carry, lo, hi);
        data[index] := lo;
        assert data[..len] == was[index := lo];
        done, rest := done + [lo], rest[1..];
        carry := hi;
        index := index + 1;
      }
      ok := true;
      if carry != 0 {
        ok := TryPush(carry);
      }
    }

    /** Adds a span into limbs that reach far enough. */
    method AddSpan(y: seq<Limb>, start: nat) returns (ok: bool)
      requires Valid() && |y| + start <= len
      modifies this, data
      ensures Valid()
      ensures var sum := old(Limbs()[..start] + AddBoth(Limbs()[start..], y, 0));
        ok == (|sum| <= 62) && (ok ==> Limbs() == sum)
    {
      var carry, index := false, 0;
      ghost var done, rest, todo := Limbs()[..start], Limbs()[start..], y;
      ghost var sum := done + AddBoth(rest, todo, 0);
      while index < |y|
        invariant 0 <= index <= |y| && todo == y[index..]
        invariant |done| == index + start && |done| + |rest| == len <= 62 && |todo| <= |rest|
        invariant data[..len] == done + rest
        invariant sum == done + AddBoth(rest, todo, if carry then 1 else 0)
      {
        ghost var was := data[..len];
        var x, c1 := ScalarAdd(data[index + start], y[index]);
        var c2 := false;
        if carry {
          x, c2 := ScalarAdd(x, 1);
        }
        Rewrite(done, rest, x);
        AddNext(done, rest, todo, if carry then 1 else 0, x, if c1 || c2 then 1 else 0);
        data[index + start] := x;
        assert data[..len] == was[index + start := x];
        done, rest, todo := done + [x], rest[1..], todo[1..];
        carry := c1 || c2;
        index := index + 1;
      }
      ok := true;
      if carry {
        assert Limbs()[..|done|] == done && Limbs()[|done|..] == rest;
        ok := SmallAddFrom(1, |y| + start);
      }
    }

    /** Adds a span into the limbs from position `start` upwards. */
    method LargeAddFrom(y: seq<Limb>, start: nat) returns (ok: bool)
      requires Valid()
      modifies this, data
      ensures Valid()
      ensures var sum := Sum(old(Limbs()), y, start);
        ok == (|sum| <= 62) && (ok ==> Limbs() == sum)
    {
      ghost var s := Limbs();
      SumShape(s, y, start);
      ok := true;
      if len < start || |y| > len - start {
        ok := TryReserve(|y| + start);
        assert ok ==> Limbs() == Extend(s, |y| + start);
      }
      if ok {
        ok := AddSpan(y, start);
      }
    }

    /** Adds row `i` of the product of `z` by a span whose limb `i` is `yi`. */
    method AddRow(z: seq<Limb>, yi: Limb, i: nat) returns (ok: bool)
      requires Valid() && |z| <= 62
      modifies this, data
      ensures Valid()
      ensures var row := Scale(z, yi, 0);
        var sum := Sum(old(Limbs()), row, i);
        ok == (|row| <= 62 && |sum| <= 62) && (ok ==> Limbs() == sum)
    {
      var zi := new Bigint.FromSpan(z);
      ok := zi.SmallMul(yi);
      if ok {
        ok := LargeAddFrom(zi.Limbs(), i);
      }
    }

    /** Grade-school multiplication. Multiplying by an empty span changes nothing. */
    method LongMul(y: seq<Limb>) returns (ok: bool)
      requires Valid() && |y| <= 62
      modifies this, data
      ensures Valid()
      ensures ok ==> Tidy() && Value() == if y == [] then old(Value()) else old(Value()) * Val(y)
      ensures old(Tidy()) && old(Value()) * Val(y) < Weight(62) ==> ok
    {
      hide Val, Weight, Scale, Sum, Normalized, PartialProduct, WholeFits;
      var z := Limbs();
      WholeProduct(z, y);
      WhenFits(z, y);
      ok := true;
      if |y| != 0 {
        FirstRow(z, y);
        ok := SmallMul(y[0]);
        var index := 1;
        while ok && index < |y|
          invariant 1 <= index <= |y| && Valid()
          invariant ok ==> Value() == PartialProduct(z, y, index)
          invariant WholeFits(z, y) ==> ok
        {
          NextRow(Limbs(), z, y, index);
          if y[index] != 0 {
            ok := AddRow(z, y[index], index);
          }
          index := index + 1;
        }
      }
      if ok {
        Normalize();
      }
    }

    method LargeMul(y: seq<Limb>) returns (ok: bool)
      requires Valid() && |y| <= 62
      modifies this, data
      ensures Valid()
      ensures ok ==> Value() == if y == [] then old(Value()) else old(Value()) * Val(y)
      ensures old(Tidy()) && old(Value()) * Val(y) < Weight(62) ==> ok
      ensures ok && old(Tidy()) && Val(y) != 0 ==> Tidy()
    {
      if |y| == 1 {
        ValOne(y[0]);
        assert y == [y[0]];
        ScaleMeaning(Limbs(), y[0], 62);
        ok := SmallMul(y[0]);
      } else {
        ok := LongMul(y);
      }
    }

    /** Shifts every limb left by `n` bits, carrying into the next. */
    method ShlBits(n: nat) returns (ok: bool)
      requires Valid() && 0 < n < 64
      modifies this, data
      ensures Valid() && Pow(2, n) < 0x1_0000_0000_0000_0000
      ensures var shifted := Scale(old(Limbs()), Pow(2, n), 0);
        ok == (|shifted| <= 62) && (ok ==> Limbs() == shifted)
    {
      hide Pow, Val, Weight, Scale, Normalized, ShiftLeft, ShiftRight;
      SmallPow2(n);
      ShiftZero(64 - n);
      var prev, index: nat := 0, 0;
      ghost var done, rest: seq<Limb> := [], Limbs();
      ghost var shifted := Scale(rest, Pow(2, n), 0);
      while index < len
        invariant 0 <= index <= len == |done| + |rest| <= 62 && |done| == index
        invariant prev < 0x1_0000_0000_0000_0000 && ShiftRight(prev, 64 - n) < Pow(2, n)
        invariant data[..len] == done + rest
        invariant shifted == done + Scale(rest, Pow(2, n), ShiftRight(prev, 64 - n))
      {
        ghost var was := data[..len];
        var x, carry := data[index], ShiftRight(prev, 64 - n);
        assert x == rest[0];
        ShiftNext(done, rest, n, carry);
        var y: Limb := ShiftLeft(x, n) + carry;
        Rewrite(done, rest, y);
        data[index] := y;
        assert data[..len] == was[index := y];
        done, rest := done + [y], rest[1..];
        prev := x;
        index := index + 1;
      }
      ScaleDone(done, rest, Pow(2, n), ShiftRight(prev, 64 - n));
      ok := true;
      var carry := ShiftRight(prev, 64 - n);
      if carry != 0 {
        ok := TryPush(carry);
      }
    }

    /** Moves the limbs up by `n` places; an empty number stays empty. */
    method ShlLimbs(n: nat) returns (ok: bool)
      requires Valid()
      modifies this, data
      ensures Valid()
      ensures ok == (n + old(len) <= 62)
      ensures Limbs() == if ok then Raise(old(Limbs()), n) else old(Limbs())
    {
      ok := n + len <= 62;
      if ok && len != 0 {
        ghost var s := Limbs();
        forall i | 0 <= i < len {
          data[i + n] := data[i];
        }
        forall i | 0 <= i < n {
          data[i] := 0;
        }
        len := len + n;
        assert data[..n] == ZeroLimbs(n) && data[n..len] == s;
        assert Limbs() == data[..n] + data[n..len];
      }
    }

    /** Shifts left by `n` bits. */
    method Shl(n: nat) returns (ok: bool)
      requires Valid()
      modifies this, data
      ensures Valid()
      ensures var t := Shifted(old(Limbs()), n % 64);
        && ok == (|t| <= 62 && (n < 64 || |t| + n / 64 <= 62))
        && (ok ==> Limbs() == Raise(t, n / 64))
    {
      var rem, div := n % 64, n / 64;
      ok := true;
      if rem != 0 {
        ok := ShlBits(rem);
      }
      if ok && div != 0 {
        ok := ShlLimbs(div);
      }
    }

    method Pow2(exp: nat) returns (ok: bool)
      requires Valid() && Tidy()
      modifies this, data
      ensures Valid()
      ensures ok ==> Tidy() && Value() == old(Value()) * Pow(2, exp)
      ensures 0 < old(Value()) && old(Value()) * Pow(2, exp) < Weight(62) ==> ok
    {
      ghost var product := Value() * Pow(2, exp);
      ShlMeaning(Limbs(), exp % 64, exp / 64, product);
      ok := Shl(exp);
    }

    /** One step of `Pow5`: multiplies by 5^135, leaving `left` powers to go. */
    method LargeStep(ghost left: nat, ghost product: int) returns (ok: bool)
      requires Valid() && Tidy() && Times(Value(), 5, 135 + left) == product
      modifies this, data
      ensures Valid()
      ensures ok ==> Tidy() && Times(Value(), 5, left) == product
      ensures product < Weight(62) ==> ok
    {
      LargePower();
      FiveStep(Value(), Val(LARGE_POWER_OF_5), 135, left);
      ok := LargeMul(LARGE_POWER_OF_5);
    }

    method SmallStep(step: nat, ghost left: nat, ghost product: int) returns (ok: bool)
      requires Valid() && Tidy() && step < 28 && Times(Value(), 5, step + left) == product
      modifies this, data
      ensures Valid()
      ensures ok ==> Tidy() && Times(Value(), 5, left) == product
      ensures product < Weight(62) ==> ok
    {
      SmallPowers(step);
      FiveStep(Value(), SMALL_POWERS_OF_5[step], step, left);
      ok := MulWord(SMALL_POWERS_OF_5[step]);
    }

    /** Multiplies by 5^exp in steps of 5^135, 5^27 and a table entry. */
    method Pow5(exp: nat) returns (ok: bool)
      requires Valid() && Tidy()
      modifies this, data
      ensures Valid()
      ensures ok ==> Tidy() && Value() == old(Value()) * Pow(5, exp)
      ensures old(Value()) * Pow(5, exp) < Weight(62) ==> ok
    {
      hide Times, Pow, Weight, Val;
      ghost var product := Times(Value(), 5, exp);
      TimesPow(Value(), 5, exp);
      var left := exp;
      ok := true;
      while ok && left >= 135
        invariant Valid() && 0 <= left <= exp
        invariant ok ==> Tidy() && Times(Value(), 5, left) == product
        invariant product < Weight(62) ==> ok
        decreases left, ok
      {
        ok := LargeStep(left - 135, product);
        left := left - 135;
      }
      while ok && left >= 27
        invariant Valid() && 0 <= left <= exp
        invariant ok ==> Tidy() && Times(Value(), 5, left) == product
        invariant product < Weight(62) ==> ok
        decreases left, ok
      {
        ok := SmallStep(27, left - 27, product);
        left := left - 27;
      }
      if ok && left != 0 {
        ok := SmallStep(left, 0, product);
      }
      TimesNone(Value(), 5);
    }

    method Pow10(exp: nat) returns (ok: bool)
      requires Valid() && Tidy()
      modifies this, data
      ensures Valid()
      ensures ok ==> Tidy() && Value() == old(Value()) * Pow(10, exp)
      ensures 0 < old(Value()) && old(Value()) * Pow(10, exp) < Weight(62) ==> ok
    {
      ghost var v := Value();
      TenSplits(v, exp);
      ok := Pow5(exp);
      if ok {
        ok := Pow2(exp);
      }
    }

    /** Multiplies by a limb; the contract in terms of values. */
    method MulWord(y: Limb) returns (ok: bool)
      requires Valid() && Tidy() && y != 0
      modifies this, data
      ensures Valid()
      ensures ok ==> Tidy() && Value() == old(Value()) * y
      ensures old(Value()) * y < Weight(62) ==> ok
    {
      ScaleMeaning(Limbs(), y, 62);
      ok := SmallMul(y);
    }

    /** Adds a limb; the contract in terms of values. */
    method AddWord(y: Limb) returns (ok: bool)
      requires Valid() && Tidy()
      modifies this, data
      ensures Valid()
      ensures ok ==> Tidy() && Value() == old(Value()) + y
      ensures old(Value()) + y < Weight(62) ==> ok
    {
      RippleMeaning(Limbs(), y, 62);
      RippleWhole(Limbs(), y);
      ok := SmallAddFrom(y, 0);
    }

    /** Whether a limb is set below the `index` topmost ones. */
    method ExistsNonzeroAfter(index: nat) returns (r: bool)
      requires Valid() && index <= len
      ensures r <==> Val(Limbs()[..len - index]) != 0
    {
      var i := index;
      ValIsZero(Limbs()[..len - index]);
      while i < len
        invariant index <= i <= len
        invariant forall j :: len - i <= j < len - index ==> data[j] == 0
      {
        if data[len - i - 1] != 0 {
          assert Limbs()[..len - index][len - i - 1] != 0;
          return true;
        }
        i := i + 1;
      }
      return false;
    }

    /** The leading 64 bits, and whether any bit below them is set. */
    method Hi64() returns (hi: Limb, truncated: bool)
      requires Valid() && Tidy()
      ensures TopBits(Value(), hi, truncated)
      ensures Value() > 0 ==> hi >= 0x8000_0000_0000_0000
    {
      if len == 0 {
        hi, truncated := 0, false;
      } else if len == 1 {
        TopBitsOne(Limbs());
        Justify(data[0]);
        hi, truncated := ShiftLeft(data[0], LeadingZeros(data[0])), false;
      } else {
        TopBitsTwo(Limbs());
        var r0, r1 := data[len - 1], data[len - 2];
        var shl := LeadingZeros(r0);
        Justify(r0);
        ShiftIsScale(r0, shl, ShiftRight(r1, 64 - shl)) by {
          ShiftSplit(r1, shl);
        }
        hi := ShiftLeft(r0, shl) + ShiftRight(r1, 64 - shl);
        truncated := ShiftLeft(r1, shl) != 0;
        var lower := ExistsNonzeroAfter(2);
        truncated := truncated || lower;
      }
    }

    method BitLength() returns (bits: int)
      requires Valid() && Tidy()
      ensures bits == BitLen(Value())
    {
      if len == 0 {
        bits := 0;
      } else {
        ValBits(Limbs());
        bits := 64 * len - LeadingZeros(data[len - 1]);
      }
    }

    /** Three-way comparison, limb by limb from the top. */
    method Compare(other: Bigint) returns (ord: int)
      requires Valid() && Tidy() && other.Valid() && other.Tidy()
      ensures ord == if Value() > other.Value() then 1 else if Value() < other.Value() then -1 else 0
    {
      if len > other.len {
        LongerIsMore(other.Limbs(), Limbs());
        return 1;
      } else if len < other.len {
        LongerIsMore(Limbs(), other.Limbs());
        return -1;
      }
      var index := len;
      while index > 0
        invariant 0 <= index <= len
        invariant Limbs()[index..] == other.Limbs()[index..]
      {
        var xi, yi := data[index - 1], other.data[index - 1];
        if xi > yi {
          TopLimbDecides(other.Limbs(), Limbs(), index - 1);
          return 1;
        } else if xi < yi {
          TopLimbDecides(Limbs(), other.Limbs(), index - 1);
          return -1;
        }
        index := index - 1;
      }
      assert Limbs()[0..] == Limbs() && other.Limbs()[0..] == other.Limbs();
      return 0;
    }
  }
}
