/**
 * Splitting a number string into sign, digits and exponent, with a 64-bit
 * significand that is exact up to 19 digits and a bracket beyond.
 */
module NumberString {
  import opened Bytes
  import opened Decimal
  import opened Powers
  import opened Binary64
  import opened Swar
  import opened Mantissa
  import opened SlowPath

  const PLUS: Byte := 43
  const MINIMAL_NINETEEN_DIGIT_INTEGER := 1000000000000000000

  datatype Options = Options(scientific: bool, fixed: bool, fortran: bool, leadingPlus: bool, json: bool, point: Byte)

  datatype Outcome =
    | MissingIntegerOrDotAfterSign
    | JsonMissingIntegerAfterSign
    | JsonNoDigitsInIntegerPart
    | JsonLeadingZerosInIntegerPart
    | JsonNoDigitsInFractionalPart
    | NoDigitsInMantissa
    | MissingExponentialPart

  /** Where the parts of a number string lie. */
  datatype Layout = Layout(negative: bool, intPart: seq<Byte>, fraction: Option<seq<Byte>>,
                           expDigits: seq<Byte>, expNegative: bool, end: nat)

  datatype Parsed = Parsed(negative: bool, intPart: seq<Byte>, fraction: Option<seq<Byte>>,
                           exponent: int, mantissa: nat, tooManyDigits: bool, lastmatch: nat)

  function At(s: seq<Byte>, p: nat): int {
    if p < |s| then s[p] else -1
  }

  predicate DigitAt(s: seq<Byte>, p: nat) {
    p < |s| && IsDigit(s[p])
  }

  /** Whether an exponent may start with character `c`; -1 stands for the end of the string. */
  predicate StartsExponent(o: Options, c: int) {
    (o.scientific && (c == 101 || c == 69)) || (o.fortran && (c == 43 || c == 45 || c == 100 || c == 68))
  }

  predicate IsLetter(c: int) {
    c == 101 || c == 69 || c == 100 || c == 68
  }

  /** The exponent written at `e`: its digits, its sign and where it ends. */
  function ExponentAt(s: seq<Byte>, e: nat, o: Options): (r: Result<(seq<Byte>, bool, nat), Outcome>)
    requires e <= |s|
    ensures r.Ok? ==> AllDigits(r.value.0)
  {
    if StartsExponent(o, At(s, e)) then
      var a := if IsLetter(At(s, e)) then e + 1 else e;
      var d := if At(s, a) == 45 || At(s, a) == 43 then a + 1 else a;
      if DigitAt(s, d) then Ok((s[d..DigitRun(s, d)], At(s, a) == 45, DigitRun(s, d)))
      else if !o.fixed then Err(MissingExponentialPart)
      else Ok(([], false, e))
    else if o.scientific && !o.fixed then Err(MissingExponentialPart)
    else Ok(([], false, e))
  }

  /** Where the digits of a number string lie. */
  datatype Digits = Digits(start: nat, intEnd: nat, fracEnd: nat, intPart: seq<Byte>, fraction: Option<seq<Byte>>)

  predicate Signed(s: seq<Byte>, o: Options)
    requires s != []
  {
    s[0] == MINUS || (o.leadingPlus && !o.json && s[0] == PLUS)
  }

  /** Where the digits start: behind a sign, after which a digit or a point must come. */
  function StartOf(s: seq<Byte>, o: Options): (r: Result<nat, Outcome>)
    requires s != []
    ensures r.Ok? ==> r.value <= |s|
  {
    if Signed(s, o) && !DigitAt(s, 1) && (o.json || At(s, 1) != o.point || |s| == 1) then
      Err(if o.json && |s| > 1 then JsonMissingIntegerAfterSign else MissingIntegerOrDotAfterSign)
    else Ok(if Signed(s, o) then 1 else 0)
  }

  /** What is wrong with the digits before the point. */
  function IntFault(s: seq<Byte>, o: Options, start: nat, intEnd: nat): Option<Outcome>
    requires start <= intEnd <= |s|
  {
    if o.json && intEnd == start then Some(JsonNoDigitsInIntegerPart)
    else if o.json && s[start] == ZERO && intEnd - start > 1 then Some(JsonLeadingZerosInIntegerPart)
    else None
  }

  /** What is wrong with the digits behind the point, or with having no digits at all. */
  function FractionFault(o: Options, intPart: seq<Byte>, fraction: Option<seq<Byte>>): Option<Outcome> {
    if o.json && fraction == Some([]) then Some(JsonNoDigitsInFractionalPart)
    else if !o.json && intPart == [] && FractionDigits(fraction) == [] then Some(NoDigitsInMantissa)
    else None
  }

  function DigitsOf(s: seq<Byte>, o: Options): (r: Result<Digits, Outcome>)
    requires s != []
    ensures r.Ok? ==> AllDigits(r.value.intPart) && AllDigits(FractionDigits(r.value.fraction)) && r.value.fracEnd <= |s|
  {
    match StartOf(s, o)
    case Err(e) => Err(e)
    case Ok(start) =>
      var intEnd := DigitRun(s, start);
      var fault := IntFault(s, o, start, intEnd);
      if fault.Some? then Err(fault.value)
      else
        var hasPoint := At(s, intEnd) == o.point;
        var fracEnd := if hasPoint then DigitRun(s, intEnd + 1) else intEnd;
        var intPart, fraction := s[start..intEnd], if hasPoint then Some(s[intEnd + 1..fracEnd]) else None;
        var late := FractionFault(o, intPart, fraction);
        if late.Some? then Err(late.value) else Ok(Digits(start, intEnd, fracEnd, intPart, fraction))
  }

  /** The accepted strings and their parts. */
  function LayoutOf(s: seq<Byte>, o: Options): (r: Result<Layout, Outcome>)
    requires s != []
    ensures r.Ok? ==> AllDigits(r.value.intPart) && AllDigits(FractionDigits(r.value.fraction)) && AllDigits(r.value.expDigits)
  {
    match DigitsOf(s, o)
    case Err(e) => Err(e)
    case Ok(d) =>
      match ExponentAt(s, d.fracEnd, o)
      case Err(e) => Err(e)
      case Ok(x) => Ok(Layout(s[0] == MINUS, d.intPart, d.fraction, x.0, x.1, x.2))
  }

  function FractionDigits(fraction: Option<seq<Byte>>): seq<Byte> {
    match fraction
    case Some(f) => f
    case None => []
  }

  /** The exponent as the parser accumulates it: digits stop counting once 2^28 is reached. */
  function ExpNumber(digits: seq<Byte>): nat
    requires AllDigits(digits)
  {
    if digits == [] then 0
    else
      var e := ExpNumber(digits[..|digits| - 1]);
      if e < 0x1000_0000 then 10 * e + (digits[|digits| - 1] - ZERO) else e
  }

  /** The accumulated exponent is the written one exactly while the digits before the last stay below 2^28. */
  lemma {:induction false} ExpNumberExact(digits: seq<Byte>)
    requires AllDigits(digits)
    ensures ExpNumber(digits) == Value(digits) <==> Value(digits) / 10 < 0x1000_0000
    ensures Value(digits) / 10 >= 0x1000_0000 ==> 0x1000_0000 <= ExpNumber(digits) < Value(digits)
  {
    if digits != [] {
      ExpNumberExact(digits[..|digits| - 1]);
    }
  }

  /** An exponent that is cut: the parser reads 10^2684354560 as a smaller power of ten. */
  lemma ExponentCut()
    ensures AllDigits(NatText(2684354560)) && Value(NatText(2684354560)) == 2684354560
    ensures ExpNumber(NatText(2684354560)) < 2684354560
  {
    hide NatText, Value, ExpNumber;
    ValueOfNatText(2684354560);
    ExpNumberExact(NatText(2684354560));
  }

  function SignedExponent(digits: seq<Byte>, negative: bool): int
    requires AllDigits(digits)
  {
    var e: int := ExpNumber(digits);
    if negative then -e else e
  }

  /** All digits of the significand. */
  function AllDigitsOf(l: Layout): seq<Byte> {
    l.intPart + FractionDigits(l.fraction)
  }

  /** What the parser promises about the significand it returns. */
  predicate Brackets(l: Layout, a: Parsed)
    requires AllDigits(l.intPart) && AllDigits(FractionDigits(l.fraction)) && AllDigits(l.expDigits)
  {
    var all, x := AllDigitsOf(l), SignedExponent(l.expDigits, l.expNegative) - |FractionDigits(l.fraction)|;
    if !a.tooManyDigits then a.mantissa == Value(all) && a.exponent == x
    else
      var k := a.exponent - x;
      && 0 <= k <= |all| && a.mantissa == Value(all[..|all| - k])
      && MINIMAL_NINETEEN_DIGIT_INTEGER <= a.mantissa < 10 * MINIMAL_NINETEEN_DIGIT_INTEGER
  }

  lemma WrapStep(v: nat, k: nat, d: nat)
    ensures Wrap64(Wrap64(v) * k + d) == Wrap64(v * k + d) >= 0
  {
    var m, q := 0x1_0000_0000_0000_0000, v / 0x1_0000_0000_0000_0000;
    assert v == q * m + Wrap64(v);
    assert v * k + d == (q * k) * m + (Wrap64(v) * k + d);
    WrapMultiple(q * k, Wrap64(v) * k + d);
  }

  lemma WrapMultiple(q: nat, x: nat)
    ensures Wrap64(q * 0x1_0000_0000_0000_0000 + x) == Wrap64(x)
  {
    var m := 0x1_0000_0000_0000_0000;
    Euclid(x, m);
    ModUnique(q * m + x, q + x / m, x % m, m);
  }

  /** Reads digits by Horner's rule; the word may wrap around. */
  method ReadDigits(s: seq<Byte>, p0: nat, i0: nat, ghost seen: seq<Byte>) returns (p: nat, i: nat)
    requires p0 <= |s| && AllDigits(seen) && i0 == Wrap64(Value(seen))
    ensures p == DigitRun(s, p0) && AllDigits(seen + s[p0..p]) && i == Wrap64(Value(seen + s[p0..p]))
  {
    hide Wrap64, Value;
    p, i := p0, i0;
    assert seen + s[p0..p] == seen;
    while p != |s| && IsDigit(s[p])
      invariant p0 <= p <= |s| && DigitRun(s, p) == DigitRun(s, p0)
      invariant AllDigits(seen + s[p0..p]) && i == Wrap64(Value(seen + s[p0..p]))
      decreases |s| - p
    {
      Grow(seen, s, p0, p);
      WrapStep(Value(seen + s[p0..p]), 10, s[p] - ZERO);
      i := Wrap64(i * 10 + (s[p] - ZERO));
      p := p + 1;
    }
  }

  lemma Grow(seen: seq<Byte>, s: seq<Byte>, p0: nat, p: nat)
    requires p0 <= p < |s| && AllDigits(seen + s[p0..p]) && IsDigit(s[p])
    ensures AllDigits(seen + s[p0..p + 1])
    ensures Value(seen + s[p0..p + 1]) == Value(seen + s[p0..p]) * 10 + (s[p] - ZERO)
  {
    var t := seen + s[p0..p + 1];
    assert t == t[..|t| - 1] + [s[p]] && t[0..|t| - 1] == seen + s[p0..p] && t[0..|t|] == t;
    NextDigit(t, 0, |t| - 1);
  }

  /** Reads eight digits at a time while eight are left. */
  method LoopParseIfEightDigits(s: seq<Byte>, p0: nat, i0: nat, ghost seen: seq<Byte>) returns (p: nat, i: nat)
    requires p0 <= |s| && AllDigits(seen) && i0 == Wrap64(Value(seen))
    ensures p0 <= p <= |s| && DigitRun(s, p) == DigitRun(s, p0)
    ensures AllDigits(seen + s[p0..p]) && i == Wrap64(Value(seen + s[p0..p]))
  {
    hide Wrap64, Value, ParseEightDigitsUnrolledSwar, IsMadeOfEightDigitsFast, Word;
    p, i := p0, i0;
    assert seen + s[p0..p] == seen;
    while |s| - p >= 8 && IsMadeOfEightDigitsFast(Word(s[p..p + 8]))
      invariant p0 <= p <= |s| && DigitRun(s, p) == DigitRun(s, p0)
      invariant AllDigits(seen + s[p0..p]) && i == Wrap64(Value(seen + s[p0..p]))
    {
      var eight := s[p..p + 8];
      EightDigitTest(eight);
      ParseEightIsValue(eight);
      GrowEight(seen, s, p0, p);
      RunSkips(s, p, 8);
      WrapStep(Value(seen + s[p0..p]), 100000000, Value(eight));
      i := Wrap64(i * 100000000 + ParseEightDigitsUnrolledSwar(Word(eight)));
      p := p + 8;
    }
  }

  lemma GrowEight(seen: seq<Byte>, s: seq<Byte>, p0: nat, p: nat)
    requires p0 <= p && p + 8 <= |s| && AllDigits(seen + s[p0..p]) && AllDigits(s[p..p + 8])
    ensures AllDigits(seen + s[p0..p + 8])
    ensures Value(seen + s[p0..p + 8]) == Value(seen + s[p0..p]) * 100000000 + Value(s[p..p + 8])
  {
    hide Pow, Value;
    assert seen + s[p0..p + 8] == (seen + s[p0..p]) + s[p..p + 8];
    ValueConcat(seen + s[p0..p], s[p..p + 8]);
    PowersOfTen(8);
  }

  lemma {:induction false} RunSkips(s: seq<Byte>, p: nat, n: nat)
    requires p + n <= |s| && AllDigits(s[p..p + n])
    ensures DigitRun(s, p) == DigitRun(s, p + n)
    decreases n
  {
    if n > 0 {
      assert s[p] == s[p..p + n][0];
      assert s[p + 1..p + n] == s[p..p + n][1..];
      RunSkips(s, p + 1, n - 1);
    }
  }

  /** Reads the digits of the exponent. */
  method ReadExponent(s: seq<Byte>, p0: nat) returns (p: nat, e: nat)
    requires p0 <= |s|
    ensures p == DigitRun(s, p0) && e == ExpNumber(s[p0..p])
  {
    p, e := p0, 0;
    while p != |s| && IsDigit(s[p])
      invariant p0 <= p <= |s| && DigitRun(s, p) == DigitRun(s, p0) && AllDigits(s[p0..p])
      invariant e == ExpNumber(s[p0..p])
      decreases |s| - p
    {
      assert s[p0..p + 1][..p - p0] == s[p0..p];
      if e < 0x1000_0000 {
        e := 10 * e + (s[p] - ZERO);
      }
      p := p + 1;
    }
  }

  /** Re-reads leading digits until 19 significant ones are taken. */
  method ReadLeading(part: seq<Byte>, i0: nat, ghost seen: seq<Byte>) returns (p: nat, i: nat)
    requires AllDigits(part) && AllDigits(seen) && i0 == Value(seen) < 10 * MINIMAL_NINETEEN_DIGIT_INTEGER
    ensures p <= |part| && AllDigits(seen + part[..p]) && i == Value(seen + part[..p]) < 10 * MINIMAL_NINETEEN_DIGIT_INTEGER
    ensures i >= MINIMAL_NINETEEN_DIGIT_INTEGER || p == |part|
  {
    hide Value;
    p, i := 0, i0;
    assert seen + part[..p] == seen;
    while i < MINIMAL_NINETEEN_DIGIT_INTEGER && p != |part|
      invariant p <= |part| && AllDigits(seen + part[..p])
      invariant i == Value(seen + part[..p]) < 10 * MINIMAL_NINETEEN_DIGIT_INTEGER
      decreases |part| - p
    {
      Grow(seen, part, 0, p);
      i := i * 10 + (part[p] - ZERO);
      p := p + 1;
    }
  }

  /** The state of the scan over leading zeros and points: `z` zeros have been skipped to reach `p`. */
  predicate Scanned(s: seq<Byte>, point: Byte, start: nat, intEnd: nat, fracEnd: nat, all: seq<Byte>, p: nat, z: nat) {
    && start <= p <= |s| && z <= p
    && if z <= intEnd - start && p == start + z then z <= |all| && AllZeros(all[..z])
       else if p <= fracEnd then z == p - start - 1 <= |all| && intEnd < p && AllZeros(all[..z])
       else AllZeros(all) && z >= |all|
  }

  /** The spans of a layout inside the string. */
  predicate Spans(s: seq<Byte>, point: Byte, start: nat, intEnd: nat, fracEnd: nat, all: seq<Byte>) {
    && start <= intEnd <= fracEnd <= |s| && !IsDigit(point)
    && AllDigits(s[start..intEnd]) && (intEnd < |s| ==> !IsDigit(s[intEnd]))
    && (fracEnd < |s| ==> !IsDigit(s[fracEnd]))
    && if At(s, intEnd) == point then intEnd < fracEnd && AllDigits(s[intEnd + 1..fracEnd]) && all == s[start..intEnd] + s[intEnd + 1..fracEnd]
       else fracEnd == intEnd && all == s[start..intEnd]
  }

  /** The digit count without the leading zeros; it drops to zero or below when there is nothing else. */
  method SignificantCount(s: seq<Byte>, point: Byte, begin: nat, count0: nat, ghost intEnd: nat, ghost fracEnd: nat, ghost all: seq<Byte>)
    returns (count: int)
    requires Spans(s, point, begin, intEnd, fracEnd, all) && count0 == |all|
    ensures if Strip(all) == [] then count <= 0 else count == |Strip(all)|
  {
    hide Strip, AllZeros;
    var p := begin;
    count := count0;
    NoDigits(all[..0]);
    while p != |s| && (s[p] == ZERO || s[p] == point)
      invariant count <= count0 && Scanned(s, point, begin, intEnd, fracEnd, all, p, count0 - count)
      decreases |s| - p
    {
      ScanStep(s, point, begin, intEnd, fracEnd, all, p, count0 - count);
      if s[p] == ZERO {
        count := count - 1;
      }
      p := p + 1;
    }
    ScanStops(s, point, begin, intEnd, fracEnd, all, p, count0 - count);
  }

  lemma ScanStep(s: seq<Byte>, point: Byte, start: nat, intEnd: nat, fracEnd: nat, all: seq<Byte>, p: nat, z: nat)
    requires Spans(s, point, start, intEnd, fracEnd, all) && Scanned(s, point, start, intEnd, fracEnd, all, p, z)
    requires p < |s| && (s[p] == ZERO || s[p] == point)
    ensures Scanned(s, point, start, intEnd, fracEnd, all, p + 1, if s[p] == ZERO then z + 1 else z)
  {
    if z <= intEnd - start && p == start + z {
      if p < intEnd {
        assert s[p] == s[start..intEnd][z] == all[z];
        assert all[..z + 1] == all[..z] + [all[z]];
      }
    } else if p < fracEnd {
      assert s[p] == s[intEnd + 1..fracEnd][p - intEnd - 1] == all[z];
      assert all[..z + 1] == all[..z] + [all[z]];
    } else if p == fracEnd {
      assert all[..z] == all;
    }
  }

  lemma ScanStops(s: seq<Byte>, point: Byte, start: nat, intEnd: nat, fracEnd: nat, all: seq<Byte>, p: nat, z: nat)
    requires Spans(s, point, start, intEnd, fracEnd, all) && Scanned(s, point, start, intEnd, fracEnd, all, p, z)
    requires p == |s| || (s[p] != ZERO && s[p] != point)
    ensures if Strip(all) == [] then z >= |all| else |Strip(all)| == |all| - z
  {
    hide Strip;
    if z >= |all| {
      assert all[..|all|] == all && (z == |all| ==> all[..z] == all);
      StripSplits(all, |all|);
    } else {
      if z <= intEnd - start && p == start + z {
        assert s[p] == s[start..intEnd][z] == all[z];
      } else {
        assert s[p] == s[intEnd + 1..fracEnd][p - intEnd - 1] == all[z];
      }
      StripSplits(all, z);
    }
  }

  /** Leading zeros do not count towards the value. */
  lemma {:induction false} StripValue(s: seq<Byte>)
    requires AllDigits(s)
    ensures AllDigits(Strip(s)) && Value(Strip(s)) == Value(s)
  {
    if s != [] && s[0] == ZERO {
      assert s == [s[0]] + s[1..];
      ValueConcat([s[0]], s[1..]);
      assert Value([s[0]]) == 0;
      StripValue(s[1..]);
    }
  }

  /** Up to 19 significant digits fit a 64-bit word. */
  lemma NoOverflow(all: seq<Byte>)
    requires AllDigits(all) && |Strip(all)| <= 19
    ensures Wrap64(Value(all)) == Value(all)
  {
    hide Pow, Value, Strip;
    StripValue(all);
    ValueBelow(Strip(all));
    PowMonotone(10, |Strip(all)|, 19);
    PowersOfTen(19);
    WrapSmall(Value(all));
  }

  /** The digits after the point: eight at a time, then one at a time. */
  method ReadFraction(s: seq<Byte>, before: nat, i0: nat, ghost seen: seq<Byte>) returns (p: nat, i: nat)
    requires before <= |s| && AllDigits(seen) && i0 == Wrap64(Value(seen))
    ensures p == DigitRun(s, before) && AllDigits(seen + s[before..p]) && i == Wrap64(Value(seen + s[before..p]))
  {
    hide Wrap64, Value;
    p, i := LoopParseIfEightDigits(s, before, i0, seen);
    var q := p;
    p, i := ReadDigits(s, q, i, seen + s[before..q]);
    assert (seen + s[before..q]) + s[q..p] == seen + s[before..p];
  }

  /** The explicit exponent, or where the number ends without one. */
  method ParseExponent(s: seq<Byte>, e: nat, o: Options) returns (r: Result<(int, nat), Outcome>)
    requires e <= |s|
    ensures match ExponentAt(s, e, o)
      case Err(x) => r == Err(x)
      case Ok(x) => r == Ok((SignedExponent(x.0, x.1), x.2))
  {
    hide ExpNumber, DigitRun, AllDigits;
    NoExponent();
    var p := e;
    if (o.scientific && p != |s| && (s[p] == 101 || s[p] == 69))
       || (o.fortran && p != |s| && (s[p] == 43 || s[p] == 45 || s[p] == 100 || s[p] == 68)) {
      if s[p] == 101 || s[p] == 69 || s[p] == 100 || s[p] == 68 {
        p := p + 1;
      }
      var negExp := false;
      if p != |s| && s[p] == 45 {
        negExp := true;
        p := p + 1;
      } else if p != |s| && s[p] == 43 {
        p := p + 1;
      }
      if p == |s| || !IsDigit(s[p]) {
        if !o.fixed {
          return Err(MissingExponentialPart);
        }
        return Ok((0, e));
      }
      var q, number := ReadExponent(s, p);
      var expNumber: int := number;
      if negExp {
        expNumber := -expNumber;
      }
      return Ok((expNumber, q));
    }
    if o.scientific && !o.fixed {
      return Err(MissingExponentialPart);
    }
    return Ok((0, e));
  }

  lemma NoExponent()
    ensures ExpNumber([]) == 0
  {
  }

  /** Starts again with the leading 19 significant digits, which cannot overflow. */
  method Reread(intPart: seq<Byte>, fraction: Option<seq<Byte>>, expNumber: int) returns (i: nat, exponent: int)
    requires AllDigits(intPart) && AllDigits(FractionDigits(fraction))
    requires |Strip(intPart + FractionDigits(fraction))| > 19
    ensures var all, x := intPart + FractionDigits(fraction), expNumber - |FractionDigits(fraction)|;
      var k := exponent - x;
      && 0 <= k <= |all| && AllDigits(all[..|all| - k]) && i == Value(all[..|all| - k])
      && MINIMAL_NINETEEN_DIGIT_INTEGER <= i < 10 * MINIMAL_NINETEEN_DIGIT_INTEGER
  {
    hide Value, Strip;
    ghost var none: seq<Byte> := [];
    NoDigits(none);
    ghost var frac := FractionDigits(fraction);
    var p;
    p, i := ReadLeading(intPart, 0, none);
    assert none + intPart[..p] == intPart[..p] == (intPart + frac)[..p];
    if i >= MINIMAL_NINETEEN_DIGIT_INTEGER {
      exponent := |intPart| - p + expNumber;
    } else {
      assert intPart[..p] == intPart;
      EnoughDigits(intPart + frac);
      var f := FractionDigits(fraction);
      p, i := ReadLeading(f, i, intPart);
      assert intPart + f[..p] == (intPart + frac)[..|intPart| + p];
      if p == |f| {
        assert f[..p] == f;
      }
      exponent := expNumber - p;
    }
  }

  /** More than 19 significant digits make at least 10^18. */
  lemma EnoughDigits(all: seq<Byte>)
    requires AllDigits(all) && |Strip(all)| > 19
    ensures Value(all) >= MINIMAL_NINETEEN_DIGIT_INTEGER
  {
    hide Pow, Value, Strip;
    StripValue(all);
    StripLeads(all);
    LeadingDigit(Strip(all));
    PowMonotone(10, 18, |Strip(all)| - 1);
    PowersOfTen(18);
  }

  lemma SpansRuns(s: seq<Byte>, point: Byte, start: nat)
    requires start <= |s| && !IsDigit(point)
    ensures var intEnd := DigitRun(s, start);
      if At(s, intEnd) == point
      then var fracEnd := DigitRun(s, intEnd + 1);
        Spans(s, point, start, intEnd, fracEnd, s[start..intEnd] + s[intEnd + 1..fracEnd])
      else Spans(s, point, start, intEnd, intEnd, s[start..intEnd])
  {
    hide DigitRun;
  }

  /** Skips a sign. */
  method ReadSign(s: seq<Byte>, o: Options) returns (r: Result<nat, Outcome>)
    requires s != []
    ensures r == StartOf(s, o)
  {
    var p := 0;
    if s[0] == MINUS || (o.leadingPlus && !o.json && s[0] == PLUS) {
      p := 1;
      if p == |s| {
        return Err(MissingIntegerOrDotAfterSign);
      }
      if o.json {
        if !IsDigit(s[p]) {
          return Err(JsonMissingIntegerAfterSign);
        }
      } else if !IsDigit(s[p]) && s[p] != o.point {
        return Err(MissingIntegerOrDotAfterSign);
      }
    }
    r := Ok(p);
  }

  /** Reads the sign and the digits, and the value of the digits modulo 2^64. */
  method ReadMantissa(s: seq<Byte>, o: Options) returns (r: Result<Digits, Outcome>, i: nat)
    requires s != [] && !IsDigit(o.point)
    ensures r == DigitsOf(s, o)
    ensures r.Ok? ==>
      var all := r.value.intPart + FractionDigits(r.value.fraction);
      && i == Wrap64(Value(all))
      && Spans(s, o.point, r.value.start, r.value.intEnd, r.value.fracEnd, all)
  {
    hide Wrap64, Value, DigitRun, AllDigits, Spans, StartOf, IntFault, FractionFault;
    var sign := ReadSign(s, o);
    if sign.Err? {
      return Err(sign.error), 0;
    }
    var start := sign.value;
    ghost var none: seq<Byte> := [];
    NoDigits(none);
    WrapSmall(0);
    var p;
    p, i := ReadDigits(s, start, 0, none);
    var intPart := s[start..p];
    assert none + intPart == intPart;
    var fault := IntFault(s, o, start, p);
    if fault.Some? {
      return Err(fault.value), i;
    }
    var intEnd := p;
    var fraction := None;
    if p != |s| && s[p] == o.point {
      p, i := ReadFraction(s, p + 1, i, intPart);
      fraction := Some(s[intEnd + 1..p]);
    } else {
      assert intPart + FractionDigits(None) == intPart;
    }
    var late := FractionFault(o, intPart, fraction);
    if late.Some? {
      return Err(late.value), i;
    }
    SpansRuns(s, o.point, start);
    r := Ok(Digits(start, intEnd, p, intPart, fraction));
  }

  /** Parses a number string: its layout, and its significand exactly or as a bracket of 19 digits. */
  method ParseNumberString(s: seq<Byte>, o: Options) returns (r: Result<Parsed, Outcome>)
    requires s != [] && !IsDigit(o.point)
    ensures LayoutOf(s, o).Err? ==> r == Err(LayoutOf(s, o).error)
    ensures LayoutOf(s, o).Ok? ==>
      var l := LayoutOf(s, o).value;
      && r.Ok? && Brackets(l, r.value)
      && r.value.negative == l.negative && r.value.intPart == l.intPart && r.value.fraction == l.fraction
      && r.value.lastmatch == l.end && (r.value.tooManyDigits <==> |Strip(AllDigitsOf(l))| > 19)
  {
    hide Wrap64, Value, DigitRun, ExponentAt, ExpNumber, Strip, DigitsOf, Spans;
    var d, i := ReadMantissa(s, o);
    if d.Err? {
      return Err(d.error);
    }
    var x := ParseExponent(s, d.value.fracEnd, o);
    if x.Err? {
      return Err(x.error);
    }
    var mantissa, exponent, many := Significand(s, o.point, d.value.start, d.value.intEnd, d.value.fracEnd,
                                                d.value.intPart, d.value.fraction, i, x.value.0);
    r := Ok(Parsed(s[0] == MINUS, d.value.intPart, d.value.fraction, exponent, mantissa, many, x.value.1));
  }

  /** The 64-bit significand and its exponent. */
  method Significand(s: seq<Byte>, point: Byte, start: nat, ghost intEnd: nat, ghost fracEnd: nat,
                     intPart: seq<Byte>, fraction: Option<seq<Byte>>, i: nat, expNumber: int)
    returns (mantissa: nat, exponent: int, many: bool)
    requires AllDigits(intPart) && AllDigits(FractionDigits(fraction))
    requires Spans(s, point, start, intEnd, fracEnd, intPart + FractionDigits(fraction))
    requires i == Wrap64(Value(intPart + FractionDigits(fraction)))
    ensures var all, x := intPart + FractionDigits(fraction), expNumber - |FractionDigits(fraction)|;
      && (many <==> |Strip(all)| > 19)
      && (!many ==> mantissa == Value(all) && exponent == x)
      && (many ==> var k := exponent - x;
          && 0 <= k <= |all| && AllDigits(all[..|all| - k]) && mantissa == Value(all[..|all| - k])
          && MINIMAL_NINETEEN_DIGIT_INTEGER <= mantissa < 10 * MINIMAL_NINETEEN_DIGIT_INTEGER)
  {
    hide Wrap64, Value, Strip, Spans;
    ghost var all := intPart + FractionDigits(fraction);
    var digitCount := |intPart| + |FractionDigits(fraction)|;
    mantissa, exponent, many := i, expNumber - |FractionDigits(fraction)|, false;
    StripShorter(all);
    if digitCount > 19 {
      var count := SignificantCount(s, point, start, digitCount, intEnd, fracEnd, all);
      if count > 19 {
        many := true;
        mantissa, exponent := Reread(intPart, fraction, expNumber);
        return;
      }
    }
    NoOverflow(all);
  }

  lemma {:induction false} StripShorter(s: seq<Byte>)
    ensures |Strip(s)| <= |s|
  {
    if s != [] && s[0] == ZERO {
      StripShorter(s[1..]);
    }
  }
}
