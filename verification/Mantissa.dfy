/** Parsing the significant digits of a number into a big integer, cut at a maximum count with a sticky 1. */
module Mantissa {
  import opened Bytes
  import opened Decimal
  import opened Powers
  import opened Limbs
  import opened BigInt
  import opened Swar

  const ZEROS_8: seq<Byte> := [ZERO, ZERO, ZERO, ZERO, ZERO, ZERO, ZERO, ZERO]

  const POWERS_OF_TEN: seq<Limb> :=
    [1, 10, 100, 1000, 10000, 100000, 1000000, 10000000, 100000000, 1000000000, 10000000000, 100000000000,
     1000000000000, 10000000000000, 100000000000000, 1000000000000000, 10000000000000000, 100000000000000000,
     1000000000000000000, 10000000000000000000]

  lemma {:induction false} PowersOfTen(i: nat)
    requires i < 20
    ensures POWERS_OF_TEN[i] == Pow(10, i)
  {
    if i > 0 {
      PowersOfTen(i - 1);
    }
  }

  /** The digits from the first non-zero one on. */
  function Strip(s: seq<Byte>): seq<Byte> {
    if s != [] && s[0] == ZERO then Strip(s[1..]) else s
  }

  predicate AllZeros(s: seq<Byte>) {
    forall i :: 0 <= i < |s| ==> s[i] == ZERO
  }

  /** The big integer and the digit count that stand for a string of significant digits. */
  function Cut(w: seq<Byte>, max: nat): (r: (nat, nat))
    requires AllDigits(w)
  {
    if |w| <= max then (Value(w), |w|)
    else if AllZeros(w[max..]) then (Value(w[..max]), max)
    else (Value(w[..max]) * 10 + 1, max + 1)
  }

  lemma {:induction false} ValueConcat(s: seq<Byte>, t: seq<Byte>)
    requires AllDigits(s) && AllDigits(t)
    ensures AllDigits(s + t) && Value(s + t) == Value(s) * Pow(10, |t|) + Value(t)
  {
    if t == [] {
      assert s + t == s;
    } else {
      var u, x := t[..|t| - 1], t[|t| - 1] - ZERO;
      ValueConcat(s, u);
      assert (s + t)[..|s + t| - 1] == s + u;
      TenTimes(Value(s), Pow(10, |u|), Value(u), x);
    }
  }

  lemma TenTimes(v: nat, p: nat, u: nat, x: nat)
    ensures (v * p + u) * 10 + x == v * (10 * p) + (u * 10 + x)
  {
  }

  lemma {:induction false} ValueBelow(s: seq<Byte>)
    requires AllDigits(s)
    ensures Value(s) < Pow(10, |s|)
  {
    if s != [] {
      ValueBelow(s[..|s| - 1]);
    }
  }

  lemma {:induction false} StripSplits(s: seq<Byte>, p: nat)
    requires p <= |s| && AllZeros(s[..p]) && (p < |s| ==> s[p] != ZERO)
    ensures Strip(s) == s[p..]
    decreases p
  {
    if p > 0 {
      assert s[..p][0] == ZERO;
      assert s[1..][..p - 1] == s[..p][1..];
      StripSplits(s[1..], p - 1);
    }
  }

  /** Skips leading zeros, eight bytes at a time while it can. */
  method SkipZeros(s: seq<Byte>) returns (p: nat)
    ensures p <= |s| && AllZeros(s[..p]) && (p < |s| ==> s[p] != ZERO)
  {
    p := 0;
    while |s| - p >= 8 && s[p..p + 8] == ZEROS_8
      invariant p <= |s| && AllZeros(s[..p])
    {
      assert s[..p + 8] == s[..p] + s[p..p + 8];
      p := p + 8;
    }
    while p < |s| && s[p] == ZERO
      invariant p <= |s| && AllZeros(s[..p])
    {
      p := p + 1;
    }
  }

  /** Whether a non-zero digit remains, eight bytes at a time while it can. */
  method IsTruncated(s: seq<Byte>) returns (r: bool)
    ensures r <==> !AllZeros(s)
  {
    var p := 0;
    while |s| - p >= 8
      invariant p <= |s| && AllZeros(s[..p])
    {
      assert AllZeros(s) ==> s[p..p + 8] == ZEROS_8;
      if s[p..p + 8] != ZEROS_8 {
        return true;
      }
      assert s[..p + 8] == s[..p] + s[p..p + 8];
      p := p + 8;
    }
    while p < |s|
      invariant p <= |s| && AllZeros(s[..p])
    {
      if s[p] != ZERO {
        return true;
      }
      p := p + 1;
    }
    assert s[..p] == s;
    return false;
  }

  /** Appends a chunk of at most 19 digits to the big integer; a number below 10^770 always fits. */
  method AddNative(big: Bigint, power: Limb, value: Limb)
    requires big.Valid() && big.Tidy() && power > 0 && big.Value() * power + value < Pow(10, 770)
    modifies big, big.data
    ensures big.Valid() && big.Tidy() && big.Value() == old(big.Value()) * power + value
  {
    hide Weight, Pow;
    DigitsFit();
    var ok := big.MulWord(power);
    ok := big.AddWord(value);
  }

  lemma DigitsFit()
    ensures Pow(10, 770) < Weight(62)
  {
    hide Pow, Weight;
    TenBelowTwo(257);
    PowMonotone(10, 770, 771);
    WeightIsPow2(62);
    PowLess(2, 2570, 3968);
  }

  /** Eight digits at a time, while there are eight and room for them. */
  method ReadEights(part: seq<Byte>, start: nat, room: nat) returns (p: nat, value: Limb, counter: nat)
    requires AllDigits(part) && start <= |part|
    ensures start <= p <= |part| && counter == p - start <= 19 && counter <= room && value == Value(part[start..p])
  {
    hide Pow, Value, Word, ParseEightDigitsUnrolledSwar;
    ValueEmpty(part, start);
    p, value, counter := start, 0, 0;
    while |part| - p >= 8 && 19 - counter >= 8 && room - counter >= 8
      invariant start <= p <= |part| && counter == p - start <= 19 && counter <= room
      invariant value == Value(part[start..p])
    {
      EightMore(part, start, p);
      value := value * 100000000 + ParseEightDigitsUnrolledSwar(Word(part[p..p + 8]));
      p, counter := p + 8, counter + 8;
    }
  }

  /** Reads up to `room` digits of a part, but no more than 19, as one word. */
  method ReadChunk(part: seq<Byte>, start: nat, room: nat) returns (p: nat, value: Limb)
    requires AllDigits(part) && start <= |part|
    ensures start <= p <= |part| && p - start <= 19 && p - start <= room
    ensures value == Value(part[start..p])
    ensures p == |part| || p - start == 19 || p - start == room
  {
    hide Pow, Value;
    var counter;
    p, value, counter := ReadEights(part, start, room);
    while counter < 19 && p < |part| && counter < room
      invariant start <= p <= |part| && counter == p - start <= 19 && counter <= room
      invariant value == Value(part[start..p])
    {
      OneMore(part, start, p);
      value := value * 10 + (part[p] - ZERO);
      p, counter := p + 1, counter + 1;
    }
  }

  lemma EightMore(s: seq<Byte>, start: nat, p: nat)
    requires AllDigits(s) && start <= p && p + 8 <= |s| && p + 8 - start <= 19
    ensures Value(s[start..p]) * 100000000 + ParseEightDigitsUnrolledSwar(Word(s[p..p + 8])) == Value(s[start..p + 8])
    ensures Value(s[start..p + 8]) < 0x1_0000_0000_0000_0000
  {
    hide Value, Word, ParseEightDigitsUnrolledSwar;
    ParseEightIsValue(s[p..p + 8]);
    ChunkGrows(s, start, p, 8);
  }

  lemma OneMore(s: seq<Byte>, start: nat, p: nat)
    requires AllDigits(s) && start <= p < |s| && p + 1 - start <= 19
    ensures Value(s[start..p]) * 10 + (s[p] - ZERO) == Value(s[start..p + 1]) < 0x1_0000_0000_0000_0000
  {
    hide Value;
    OneDigit(s, p);
    ChunkGrows(s, start, p, 1);
  }

  lemma ChunkGrows(s: seq<Byte>, start: nat, p: nat, n: nat)
    requires AllDigits(s) && start <= p && p + n <= |s| && p + n - start <= 19
    ensures Value(s[start..p + n]) == Value(s[start..p]) * POWERS_OF_TEN[n] + Value(s[p..p + n])
    ensures Value(s[start..p + n]) < 0x1_0000_0000_0000_0000
  {
    hide Pow, Value;
    assert s[start..p + n] == s[start..p] + s[p..p + n];
    ValueConcat(s[start..p], s[p..p + n]);
    ValueBelow(s[start..p + n]);
    PowMonotone(10, p + n - start, 19);
    PowersOfTen(19);
    PowersOfTen(n);
  }

  /** Reads a part digit by digit into the big integer, stopping when `maxDigits` have been read. */
  method ReadPart(big: Bigint, part: seq<Byte>, start: nat, maxDigits: nat, digits0: nat, ghost seen: seq<Byte>)
    returns (p: nat, digits: nat)
    requires big.Valid() && big.Tidy() && AllDigits(part) && AllDigits(seen) && start <= |part|
    requires big.Value() == Value(seen) && digits0 == |seen| < maxDigits <= 769
    modifies big, big.data
    ensures big.Valid() && big.Tidy() && start <= p <= |part|
    ensures AllDigits(seen + part[start..p]) && big.Value() == Value(seen + part[start..p])
    ensures digits == |seen| + (p - start) <= maxDigits && (p == |part| || digits == maxDigits)
  {
    hide Pow, Value;
    p, digits := start, digits0;
    assert seen + part[start..p] == seen;
    while p != |part| && digits != maxDigits
      invariant big.Valid() && big.Tidy() && start <= p <= |part|
      invariant AllDigits(seen + part[start..p]) && big.Value() == Value(seen + part[start..p])
      invariant digits == |seen| + (p - start) <= maxDigits
      decreases |part| - p
    {
      var q, value := ReadChunk(part, p, maxDigits - digits);
      PartGrows(seen, part, start, p, q);
      PowersOfTen(q - p);
      AddNative(big, POWERS_OF_TEN[q - p], value);
      digits := digits + (q - p);
      p := q;
    }
  }

  lemma {:induction false} PartGrows(seen: seq<Byte>, part: seq<Byte>, start: nat, p: nat, q: nat)
    requires AllDigits(seen) && AllDigits(part) && start <= p <= q <= |part| && |seen| + (q - start) <= 769
    ensures AllDigits(seen + part[start..p]) && AllDigits(seen + part[start..q])
    ensures Value(seen + part[start..q]) == Value(seen + part[start..p]) * Pow(10, q - p) + Value(part[p..q]) < Pow(10, 770)
  {
    hide Pow, Value;
    assert seen + part[start..q] == (seen + part[start..p]) + part[p..q];
    ValueConcat(seen + part[start..p], part[p..q]);
    ValueBelow(seen + part[start..q]);
    PowMonotone(10, |seen| + (q - start), 770);
  }

  /** Appends a sticky 1, so that the digits cut off are not taken for zeros. */
  method RoundUpBigint(big: Bigint, count0: nat) returns (count: nat)
    requires big.Valid() && big.Tidy() && big.Value() * 10 + 1 < Pow(10, 770)
    modifies big, big.data
    ensures big.Valid() && big.Tidy() && big.Value() == old(big.Value()) * 10 + 1 && count == count0 + 1
  {
    AddNative(big, 10, 1);
    count := count0 + 1;
  }

  /** When the limit is reached within the integer part: a sticky 1 for anything but zeros in what follows. */
  method StickyRest(big: Bigint, rest: seq<Byte>, fraction: Option<seq<Byte>>, digits0: nat) returns (digits: nat)
    requires big.Valid() && big.Tidy() && big.Value() * 10 + 1 < Pow(10, 770)
    modifies big, big.data
    ensures big.Valid() && big.Tidy()
    ensures var zeros := AllZeros(rest + if fraction.Some? then fraction.value else []);
      && big.Value() == (if zeros then old(big.Value()) else old(big.Value()) * 10 + 1)
      && digits == if zeros then digits0 else digits0 + 1
  {
    hide Pow, AllZeros;
    digits := digits0;
    var truncated := IsTruncated(rest);
    ghost var none: seq<Byte> := [];
    NoDigits(none);
    ZerosConcat(rest, if fraction.Some? then fraction.value else none);
    if fraction.Some? {
      var more := IsTruncated(fraction.value);
      truncated := truncated || more;
    }
    if truncated {
      digits := RoundUpBigint(big, digits);
    }
  }

  /** The significant digits of a number as a big integer, at most `maxDigits` of them and a sticky 1. */
  method ParseMantissa(result: Bigint, intPart: seq<Byte>, fraction: Option<seq<Byte>>, maxDigits: nat) returns (digits: nat)
    requires result.Valid() && result.Tidy() && result.Value() == 0 && 0 < maxDigits <= 769
    requires AllDigits(intPart) && (fraction.Some? ==> AllDigits(fraction.value))
    modifies result, result.data
    ensures result.Valid() && result.Tidy()
    ensures var all := intPart + if fraction.Some? then fraction.value else [];
      AllDigits(Strip(all)) && (result.Value(), digits) == Cut(Strip(all), maxDigits)
  {
    hide Pow, Value, Cut, Strip, AllZeros, AllDigits;
    ghost var frac := if fraction.Some? then fraction.value else [];
    ghost var none: seq<Byte> := [];
    NoDigits(none);
    var p := SkipZeros(intPart);
    var q;
    q, digits := ReadPart(result, intPart, p, maxDigits, 0, none);
    ghost var seen := intPart[p..q];
    assert none + seen == seen;
    if digits == maxDigits {
      IntSplits(intPart, frac, p, q);
      CutIs(intPart + frac, seen, intPart[q..] + frac, maxDigits);
      digits := StickyRest(result, intPart[q..], fraction, digits);
      return;
    }
    assert q == |intPart| && seen == intPart[p..];
    if fraction.Some? {
      digits := ParseFraction(result, intPart, fraction.value, p, digits, maxDigits);
    } else {
      FractionSplits(intPart, none, p, 0, 0);
      assert intPart[p..] + none[0..0] == seen && none[0..] == none;
      CutIs(intPart + none, seen, none, maxDigits);
    }
  }

  /** The second half: digits after the point, when the integer part did not use up the room. */
  method ParseFraction(result: Bigint, ghost intPart: seq<Byte>, fraction: seq<Byte>, ghost p: nat, digits0: nat, maxDigits: nat)
    returns (digits: nat)
    requires result.Valid() && result.Tidy() && AllDigits(intPart) && AllDigits(fraction) && maxDigits <= 769
    requires p <= |intPart| && AllZeros(intPart[..p]) && (p < |intPart| ==> intPart[p] != ZERO)
    requires AllDigits(intPart[p..]) && result.Value() == Value(intPart[p..]) && digits0 == |intPart| - p < maxDigits
    modifies result, result.data
    ensures result.Valid() && result.Tidy()
    ensures AllDigits(Strip(intPart + fraction)) && (result.Value(), digits) == Cut(Strip(intPart + fraction), maxDigits)
  {
    hide Pow, Value, Cut, Strip, AllZeros, AllDigits;
    var r := 0;
    if digits0 == 0 {
      r := SkipZeros(fraction);
    }
    var t;
    t, digits := ReadPart(result, fraction, r, maxDigits, digits0, intPart[p..]);
    FractionSplits(intPart, fraction, p, r, t);
    CutIs(intPart + fraction, intPart[p..] + fraction[r..t], fraction[t..], maxDigits);
    if digits == maxDigits {
      var truncated := IsTruncated(fraction[t..]);
      if truncated {
        digits := RoundUpBigint(result, digits);
      }
    }
  }

  lemma NoDigits(s: seq<Byte>)
    requires s == []
    ensures AllDigits(s) && Value(s) == 0 && AllZeros(s)
  {
  }

  /** Once the digits read are known, so is the cut. */
  lemma CutIs(all: seq<Byte>, seen: seq<Byte>, rest: seq<Byte>, max: nat)
    requires var w := Strip(all);
      AllDigits(w) && |w| >= |seen| && w[..|seen|] == seen && w[|seen|..] == rest
    requires |seen| <= max <= 769 && (|seen| == max || rest == [])
    ensures AllDigits(seen)
    ensures Cut(Strip(all), max) ==
      if |seen| == max && !AllZeros(rest) then (Value(seen) * 10 + 1, max + 1) else (Value(seen), |seen|)
    ensures Value(seen) * 10 + 1 < Pow(10, 770)
  {
    hide Pow, Value, Strip;
    var w := Strip(all);
    SeenDigits(w, seen, rest);
    if |w| > max {
      assert w[max..] == rest;
    } else {
      assert w == seen;
    }
  }

  lemma SeenDigits(w: seq<Byte>, seen: seq<Byte>, rest: seq<Byte>)
    requires AllDigits(w) && |w| >= |seen| && w[..|seen|] == seen && w[|seen|..] == rest && |seen| <= 769
    ensures AllDigits(seen) && w == seen + rest && (rest == [] ==> AllZeros(rest) && w == seen)
    ensures Value(seen) * 10 + 1 < Pow(10, 770)
  {
    hide Pow, Value;
    assert w == seen + rest;
    OneMoreFits(seen);
  }

  lemma OneMoreFits(seen: seq<Byte>)
    requires AllDigits(seen) && |seen| <= 769
    ensures Value(seen) * 10 + 1 < Pow(10, 770)
  {
    hide Pow, Value, AllDigits;
    ValueBelow(seen);
    PowMonotone(10, |seen|, 769);
    PowAdd(10, 1, 769);
    PowersOfTen(1);
  }

  lemma IntSplits(intPart: seq<Byte>, frac: seq<Byte>, p: nat, q: nat)
    requires p <= q <= |intPart| && AllZeros(intPart[..p]) && p < q && intPart[p] != ZERO
    requires AllDigits(intPart) && AllDigits(frac)
    ensures var w, seen := Strip(intPart + frac), intPart[p..q];
      AllDigits(w) && |w| >= |seen| && w[..|seen|] == seen && w[|seen|..] == intPart[q..] + frac
  {
    var all := intPart + frac;
    assert all[..p] == intPart[..p];
    StripSplits(all, p);
    assert all[p..] == intPart[p..q] + (intPart[q..] + frac);
  }

  lemma FractionSplits(intPart: seq<Byte>, frac: seq<Byte>, p: nat, r: nat, t: nat)
    requires p <= |intPart| && AllZeros(intPart[..p]) && (p < |intPart| ==> intPart[p] != ZERO)
    requires r <= t <= |frac| && AllDigits(intPart) && AllDigits(frac)
    requires if p < |intPart| then r == 0 else AllZeros(frac[..r]) && (r < |frac| ==> frac[r] != ZERO)
    ensures var w, seen := Strip(intPart + frac), intPart[p..] + frac[r..t];
      AllDigits(w) && |w| >= |seen| && w[..|seen|] == seen && w[|seen|..] == frac[t..]
  {
    hide Strip;
    var all := intPart + frac;
    var start := p + r;
    assert all[..start] == intPart[..p] + frac[..r];
    ZerosConcat(intPart[..p], frac[..r]);
    StripSplits(all, start);
    assert all[start..] == (intPart[p..] + frac[r..t]) + frac[t..];
  }

  lemma ZerosConcat(s: seq<Byte>, t: seq<Byte>)
    ensures AllZeros(s + t) <==> AllZeros(s) && AllZeros(t)
  {
    var u := s + t;
    assert forall i :: 0 <= i < |s| ==> u[i] == s[i];
    assert forall i :: 0 <= i < |t| ==> u[|s| + i] == t[i];
  }
}
