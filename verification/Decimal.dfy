/** Canonical decimal text of 64-bit integers: the printer (src/sds.c, src/valkey.c)
    and the strict parser (src/read.c) are inverses of each other. */
module Decimal {
  import opened Bytes

  const LLONG_MAX: int := 0x7FFF_FFFF_FFFF_FFFF
  const LLONG_MIN: int := -0x8000_0000_0000_0000
  const ULLONG_MAX: int := 0xFFFF_FFFF_FFFF_FFFF

  predicate Int64(v: int) {
    LLONG_MIN <= v <= LLONG_MAX
  }

  /** The shortest decimal representation of a natural number. */
  function NatText(n: nat): (s: seq<Byte>)
    ensures |s| > 0 && AllDigits(s)
  {
    if n < 10 then [ZERO + n] else NatText(n / 10) + [ZERO + n % 10]
  }

  /** The shortest decimal representation of an integer. */
  function IntText(v: int): (s: seq<Byte>)
    ensures |s| > 0
  {
    if v < 0 then [MINUS] + NatText(-v) else NatText(v)
  }

  /** Positional value of a digit string. */
  function Value(s: seq<Byte>): nat
    requires AllDigits(s)
  {
    if s == [] then 0 else Value(s[..|s| - 1]) * 10 + (s[|s| - 1] - ZERO)
  }

  lemma {:induction false} ValueOfNatText(n: nat)
    ensures Value(NatText(n)) == n
    ensures n > 0 ==> NatText(n)[0] != ZERO
  {
    if n >= 10 {
      ValueOfNatText(n / 10);
      assert NatText(n)[..|NatText(n)| - 1] == NatText(n / 10);
    } else {
      assert NatText(n)[..0] == [];
    }
  }

  /** A digit string without a leading zero is the canonical text of its value. */
  lemma {:induction false} NatTextOfValue(s: seq<Byte>)
    requires |s| > 0 && AllDigits(s) && s[0] != ZERO
    ensures Value(s) > 0 && NatText(Value(s)) == s
  {
    var init := s[..|s| - 1];
    assert s == init + [s[|s| - 1]];
    if |s| == 1 {
      assert Value(init) == 0;
    } else {
      NatTextOfValue(init);
    }
  }

  lemma IntTextInjective(v: int, w: int)
    requires IntText(v) == IntText(w)
    ensures v == w
  {
    if v < 0 {
      assert IntText(v)[0] == MINUS && IntText(v)[1..] == NatText(-v);
      ValueOfNatText(-v);
      if w < 0 {
        assert IntText(w)[1..] == NatText(-w);
        ValueOfNatText(-w);
      }
    } else {
      ValueOfNatText(v);
      ValueOfNatText(if w < 0 then -w else w);
    }
  }

  /** What the strict parser must accept: exactly the canonical texts of 64-bit integers. */
  ghost function ParseInt(s: seq<Byte>): Option<int> {
    if exists v :: Int64(v) && IntText(v) == s then
      var v :| Int64(v) && IntText(v) == s;
      Some(v)
    else
      None
  }

  lemma ParseIntOfText(v: int)
    requires Int64(v)
    ensures ParseInt(IntText(v)) == Some(v)
  {
    var w :| Int64(w) && IntText(w) == IntText(v) && ParseInt(IntText(v)) == Some(w);
    IntTextInjective(v, w);
  }

  /** A longer digit string never has a smaller value. */
  lemma {:induction false} ValueMonotone(s: seq<Byte>, k: nat)
    requires AllDigits(s) && k <= |s|
    ensures Value(s[..k]) <= Value(s)
    decreases |s|
  {
    if k == |s| {
      assert s[..k] == s;
    } else {
      var init := s[..|s| - 1];
      ValueMonotone(init, k);
      assert init[..k] == s[..k];
    }
  }

  /** The shape a canonical text must have: "0", or digits without a leading zero after
      `d` sign bytes. */
  ghost predicate Shape(s: seq<Byte>, d: nat, magnitude: nat) {
    && d <= 1 && d < |s|
    && (d == 1 <==> s[0] == MINUS)
    && AllDigits(s[d..]) && s[d] != ZERO && Value(s[d..]) == magnitude
  }

  lemma ShapeOfText(v: int)
    ensures if v == 0 then IntText(v) == [ZERO]
            else Shape(IntText(v), if v < 0 then 1 else 0, if v < 0 then -v else v)
  {
    var n := if v < 0 then -v else v;
    ValueOfNatText(n);
    assert IntText(v)[if v < 0 then 1 else 0..] == NatText(n);
  }

  lemma TextOfShape(s: seq<Byte>, d: nat, n: nat)
    requires Shape(s, d, n)
    ensures n > 0 && s == IntText(if d == 1 then 0 - n else n)
  {
    NatTextOfValue(s[d..]);
    assert s == s[..d] + s[d..];
  }

  /** A text that fails the shape test for every 64-bit magnitude is rejected. */
  lemma Rejected(s: seq<Byte>)
    requires s != [ZERO]
    requires forall d: nat, n: nat :: Shape(s, d, n) ==> !Int64(if d == 1 then 0 - n else n)
    ensures ParseInt(s) == None
  {
    forall v | Int64(v) ensures IntText(v) != s {
      ShapeOfText(v);
      assert v != 0 ==> !Shape(s, if v < 0 then 1 else 0, if v < 0 then -v else v);
    }
  }

  /** The digits start after the sign, if there is one. */
  ghost predicate StartsAt(s: seq<Byte>, d: nat) {
    s != [] && s != [ZERO] && d == if s[0] == MINUS then 1 else 0
  }

  /** A text with a byte that is no digit, with a leading zero, or without digits is rejected. */
  lemma NotANumber(s: seq<Byte>, d: nat, p: nat)
    requires StartsAt(s, d) && d <= p && (p < |s| ==> !IsDigit(s[p]) || (p == d && s[p] == ZERO)) && (p >= |s| ==> d == |s|)
    ensures ParseInt(s) == None
  {
    if p < |s| {
      assert s[d..][p - d] == s[p];
    }
    assert forall e: nat, n: nat :: !Shape(s, e, n);
    Rejected(s);
  }

  /** The end of the run of digits at `p`. */
  function DigitRun(s: seq<Byte>, p: nat): (q: nat)
    requires p <= |s|
    ensures p <= q <= |s| && AllDigits(s[p..q]) && (q < |s| ==> !IsDigit(s[q]))
    decreases |s| - p
  {
    if p < |s| && IsDigit(s[p]) then
      var q := DigitRun(s, p + 1);
      assert s[p..q] == [s[p]] + s[p + 1..q];
      q
    else p
  }

  lemma DigitRunUnique(s: seq<Byte>, r: nat)
    requires r <= |s| && AllDigits(s[..r]) && (r < |s| ==> !IsDigit(s[r]))
    ensures DigitRun(s, 0) == r
  {
    assert forall i :: 0 <= i < r ==> s[i] == s[..r][i];
    assert forall i :: 0 <= i < DigitRun(s, 0) ==> s[i] == s[0..DigitRun(s, 0)][i];
  }

  /** One more digit of a run. */
  lemma NextDigit(s: seq<Byte>, d: nat, p: nat)
    requires d <= p < |s| && AllDigits(s[d..p]) && IsDigit(s[p])
    ensures AllDigits(s[d..p + 1]) && Value(s[d..p + 1]) == Value(s[d..p]) * 10 + (s[p] - ZERO)
  {
    assert s[d..p + 1] == s[d..p] + [s[p]] && s[d..p + 1][..p - d] == s[d..p];
  }

  /** Digits alone decide, with the sign and the range. */
  lemma OnlyDigits(s: seq<Byte>, d: nat)
    requires StartsAt(s, d) && d < |s| && AllDigits(s[d..]) && s[d] != ZERO
    ensures var v := if d == 1 then 0 - Value(s[d..]) else Value(s[d..]);
      ParseInt(s) == if Int64(v) then Some(v) else None
  {
    var v := if d == 1 then 0 - Value(s[d..]) else Value(s[d..]);
    if Int64(v) {
      TextOfShape(s, d, Value(s[d..]));
      ParseIntOfText(v);
    } else {
      Rejected(s);
    }
  }

  /** `string2ll`: accepts exactly the canonical texts, and yields their values. */
  method String2ll(s: seq<Byte>) returns (r: Option<int>)
    ensures r == ParseInt(s)
  {
    hide ParseInt, Value, AllDigits, StartsAt, IntText, NatText;
    var plen, negative := 0, false;
    if plen == |s| {
      Rejected(s);
      return None;
    }
    if |s| == 1 && s[0] == ZERO {
      Zero();
      assert s == [ZERO];
      return Some(0);
    }
    Start(s);
    if s[0] == MINUS {
      negative := true;
      plen := 1;
      if plen == |s| {
        NotANumber(s, 1, 1);
        return None;
      }
    }
    ghost var d := plen;
    var v;
    if ZERO + 1 <= s[plen] <= ZERO + 9 {
      v := s[plen] - ZERO;
      OneDigit(s, d);
      plen := plen + 1;
    } else {
      // The source tests for a lone "0" again here; that text was accepted above.
      NotANumber(s, d, d);
      return None;
    }
    while plen < |s| && ZERO <= s[plen] <= ZERO + 9
      invariant d < plen <= |s|
      invariant AllDigits(s[d..plen]) && v == Value(s[d..plen]) <= ULLONG_MAX
    {
      NextDigit(s, d, plen);
      if v > ULLONG_MAX / 10 || v * 10 > ULLONG_MAX - (s[plen] - ZERO) {
        TooLarge(s, d, plen + 1);
        return None;
      }
      v := v * 10 + (s[plen] - ZERO);
      plen := plen + 1;
    }
    if plen < |s| {
      NotANumber(s, d, plen);
      return None;
    }
    assert s[d..plen] == s[d..];
    OnlyDigits(s, d);
    if if negative then v > -(LLONG_MIN + 1) + 1 else v > LLONG_MAX {
      return None;
    }
    r := Some(if negative then -v else v);
  }

  lemma Start(s: seq<Byte>)
    requires s != [] && s != [ZERO]
    ensures StartsAt(s, if s[0] == MINUS then 1 else 0)
  {
  }

  lemma Zero()
    ensures ParseInt([ZERO]) == Some(0)
  {
    assert IntText(0) == [ZERO];
    ParseIntOfText(0);
  }

  lemma OneDigit(s: seq<Byte>, d: nat)
    requires d < |s| && IsDigit(s[d])
    ensures AllDigits(s[d..d + 1]) && Value(s[d..d + 1]) == s[d] - ZERO
  {
    assert s[d..d] == [];
    NextDigit(s, d, d);
  }

  lemma TooLarge(s: seq<Byte>, d: nat, k: nat)
    requires StartsAt(s, d) && d <= k <= |s|
    requires AllDigits(s[d..k]) && Value(s[d..k]) > ULLONG_MAX
    ensures ParseInt(s) == None
  {
    forall e: nat, n: nat | Shape(s, e, n) ensures !Int64(if e == 1 then 0 - n else n) {
      ValueMonotone(s[d..], k - d);
      assert s[d..][..k - d] == s[d..k];
    }
    Rejected(s);
  }
}
