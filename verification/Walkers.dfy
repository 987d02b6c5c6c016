/** The two request walkers that undo the command printer without the reply reader:
    nextArgument (src/async.c) and the routing-key parser (src/command.c). */
module Walkers {
  import opened Bytes
  import opened Decimal
  import opened Command

  const MAX_BULK_LEN: nat := 512 * 1024 * 1024
  const TWO32: nat := 0x1_0000_0000

  lemma NatTextRun(n: nat, rest: seq<Byte>)
    requires rest != [] && !IsDigit(rest[0])
    ensures DigitRun(NatText(n) + rest, 0) == |NatText(n)|
    ensures (NatText(n) + rest)[..|NatText(n)|] == NatText(n) && Value(NatText(n)) == n
  {
    ValueOfNatText(n);
    assert (NatText(n) + rest)[..|NatText(n)|] == NatText(n);
    DigitRunUnique(NatText(n) + rest, |NatText(n)|);
  }

  // ------------------------------------------------------------------ nextArgument

  /** `parseBulkLen`: the value and the length of the digit run, unless empty or too large. */
  method ParseBulkLen(s: seq<Byte>) returns (r: Option<(nat, nat)>)
    ensures r == var d := DigitRun(s, 0);
                 if d == 0 || Value(s[..d]) > MAX_BULK_LEN then None else Some((Value(s[..d]), d))
  {
    if |s| == 0 || !IsDigit(s[0]) {
      return None;
    }
    var acc, p := 0, 0;
    while p < |s| && IsDigit(s[p])
      invariant 0 <= p <= |s| && AllDigits(s[..p]) && acc == Value(s[..p]) <= MAX_BULK_LEN
      invariant p > 0 || IsDigit(s[0])
    {
      NextDigit(s, 0, p);
      acc := acc * 10 + (s[p] - ZERO);
      p := p + 1;
      if acc > MAX_BULK_LEN {
        var d := DigitRun(s, 0);
        assert forall i :: 0 <= i < p ==> s[i] == s[..p][i];
        ValueMonotone(s[..d], p);
        assert s[..d][..p] == s[..p];
        return None;
      }
    }
    DigitRunUnique(s, p);
    r := Some((acc, p));
  }

  /** Position of the first '$'. */
  function FindDollar(s: seq<Byte>): (r: Option<nat>)
    ensures r.Some? ==> r.value < |s| && s[r.value] == DOLLAR && forall i :: 0 <= i < r.value ==> s[i] != DOLLAR
    ensures r.None? ==> forall i :: 0 <= i < |s| ==> s[i] != DOLLAR
  {
    if s == [] then None
    else if s[0] == DOLLAR then Some(0)
    else
      var r := FindDollar(s[1..]);
      assert forall i :: 1 <= i < |s| ==> s[i] == s[1..][i - 1];
      if r.Some? then Some(r.value + 1) else None
  }

  /** The argument after a '$', and the length of its text up to the closing CRLF. */
  function ArgText(s: seq<Byte>): (r: Option<(seq<Byte>, nat)>)
    ensures r.Some? ==> 0 < r.value.1 <= |s|
  {
    var d := DigitRun(s, 0);
    if d == 0 || Value(s[..d]) > MAX_BULK_LEN then None
    else
      var len := Value(s[..d]);
      var end := d + 2 + len + 2;
      if end > |s| || s[d] != CR || s[d + len + 2] != CR then None
      else Some((s[d + 2..d + 2 + len], end))
  }

  /** What one call finds: where to go on, if anything follows, and the argument. */
  function NextArg(s: seq<Byte>): (r: (Option<nat>, Option<seq<Byte>>))
    ensures r.0.Some? ==> 0 < r.0.value < |s|
  {
    var dollar := FindDollar(s);
    if dollar.None? then (None, None)
    else
      var p := dollar.value + 1;
      var arg := ArgText(s[p..]);
      if arg.None? then (None, None)
      else (if p + arg.value.1 == |s| then None else Some(p + arg.value.1), Some(arg.value.0))
  }

  lemma FirstDollar(s: seq<Byte>, p: nat)
    requires p < |s| && s[p] == DOLLAR && forall i :: 0 <= i < p ==> s[i] != DOLLAR
    ensures FindDollar(s) == Some(p)
  {
  }

  method ReadArgText(s: seq<Byte>) returns (r: Option<(seq<Byte>, nat)>)
    ensures r == ArgText(s)
  {
    var parsed := ParseBulkLen(s);
    if parsed.None? {
      return None;
    }
    var len, p := parsed.value.0, parsed.value.1;
    var end := p + 2 + len + 2;
    if end > |s| || s[p] != CR || s[p + len + 2] != CR {
      return None;
    }
    r := Some((s[p + 2..p + 2 + len], end));
  }

  method NextArgument(buf: seq<Byte>) returns (next: Option<nat>, str: Option<seq<Byte>>)
    ensures (next, str) == NextArg(buf)
  {
    hide FindDollar, ArgText;
    if |buf| == 0 {
      return None, None;
    }
    var p := 0;
    while p < |buf| && buf[p] != DOLLAR
      invariant 0 <= p <= |buf| && forall i :: 0 <= i < p ==> buf[i] != DOLLAR
    {
      p := p + 1;
    }
    if p == |buf| {
      return None, None;
    }
    FirstDollar(buf, p);
    p := p + 1;
    var arg := ReadArgText(buf[p..]);
    if arg.None? {
      return None, None;
    }
    str := Some(arg.value.0);
    next := if p + arg.value.1 == |buf| then None else Some(p + arg.value.1);
  }

  lemma ArgTextOfBulk(arg: seq<Byte>, rest: seq<Byte>)
    requires |arg| <= MAX_BULK_LEN
    ensures ArgText(Bulk(arg)[1..] + rest) == Some((arg, |Bulk(arg)| - 1))
  {
    hide NatText, Value, DigitRun, AllDigits, ArgText;
    var s, d, tail := Bulk(arg)[1..] + rest, |NatText(|arg|)|, CRLF + arg + CRLF + rest;
    assert s == NatText(|arg|) + tail;
    NatTextRun(|arg|, tail);
    assert s[d] == tail[0] && s[d + |arg| + 2] == tail[|arg| + 2];
    assert s[d + 2..d + 2 + |arg|] == arg;
    ArgTextKnown(s, d, |arg|);
  }

  lemma ArgTextKnown(s: seq<Byte>, d: nat, len: nat)
    requires 0 < d == DigitRun(s, 0) && Value(s[..d]) == len <= MAX_BULK_LEN
    requires d + len + 4 <= |s| && s[d] == CR && s[d + len + 2] == CR
    ensures ArgText(s) == Some((s[d + 2..d + 2 + len], d + len + 4))
  {
    hide DigitRun, Value;
  }

  /** Bytes in front of the next '$' do not matter. */
  lemma NextArgOfBulk(skipped: seq<Byte>, arg: seq<Byte>, rest: seq<Byte>)
    requires DOLLAR !in skipped && |arg| <= MAX_BULK_LEN
    ensures NextArg(skipped + Bulk(arg) + rest)
         == (if rest == [] then None else Some(|skipped| + |Bulk(arg)|), Some(arg))
  {
    var s := skipped + Bulk(arg) + rest;
    assert forall i :: 0 <= i < |skipped| ==> s[i] == skipped[i];
    FirstDollar(s, |skipped|);
    ArgTextOfBulk(arg, rest);
    assert s[|skipped| + 1..] == Bulk(arg)[1..] + rest;
  }

  predicate WithinLimits(argv: seq<seq<Byte>>) {
    forall i :: 0 <= i < |argv| ==> |argv[i]| <= MAX_BULK_LEN
  }

  /** What is left of an encoded command once k arguments have been found. */
  function Remaining(argv: seq<seq<Byte>>, k: nat): seq<Byte>
    requires k <= |argv|
  {
    (if k == 0 then Header(|argv|) else []) + BulksFrom(argv, k)
  }

  lemma WholeRemains(argv: seq<seq<Byte>>)
    ensures Remaining(argv, 0) == Encode(argv)
  {
    BulksSplit(argv, 0);
    assert Bulks(argv[..0]) == [] && BulksFrom(argv, 0) == Bulks(argv);
  }

  /** Iterate over a command buffer until no argument is found. */
  method Walk(cmd: seq<Byte>, ghost argv: seq<seq<Byte>>) returns (args: seq<seq<Byte>>)
    ensures cmd == Encode(argv) && WithinLimits(argv) ==> args == argv
  {
    hide NextArg, Encode, Remaining;
    ghost var ok := cmd == Encode(argv) && WithinLimits(argv);
    WholeRemains(argv);
    args := [];
    var buf := cmd;
    var more := true;
    while more
      invariant ok ==> |args| <= |argv| && args == argv[..|args|]
      invariant ok ==> if more then buf == Remaining(argv, |args|) else |args| == |argv|
      decreases more, |buf|
    {
      if ok {
        WalkStep(argv, |args|);
      }
      var next, str := NextArgument(buf);
      if str.Some? {
        args := args + [str.value];
      }
      more := next.Some?;
      if more {
        buf := buf[next.value..];
      }
    }
  }

  lemma HeaderHasNoDollar(n: nat)
    ensures DOLLAR !in Header(n)
  {
    assert forall i :: 0 <= i < |NatText(n)| ==> IsDigit(NatText(n)[i]);
  }

  lemma WalkStep(argv: seq<seq<Byte>>, k: nat)
    requires k <= |argv| && WithinLimits(argv)
    ensures NextArg(Remaining(argv, k)).1 == if k == |argv| then None else Some(argv[k])
    ensures NextArg(Remaining(argv, k)).0.Some? <==> k + 1 < |argv|
    ensures k + 1 < |argv| ==> Remaining(argv, k)[NextArg(Remaining(argv, k)).0.value..] == Remaining(argv, k + 1)
  {
    var skipped := if k == 0 then Header(|argv|) else [];
    HeaderHasNoDollar(|argv|);
    if k == |argv| {
      assert Remaining(argv, k) == skipped;
    } else {
      var rest := BulksFrom(argv, k + 1);
      assert Remaining(argv, k) == skipped + Bulk(argv[k]) + rest;
      NextArgOfBulk(skipped, argv[k], rest);
      assert k + 1 < |argv| ==> |rest| >= |Bulk(argv[k + 1])| > 0;
      DropFirst(skipped + Bulk(argv[k]), rest);
      assert Remaining(argv, k + 1) == rest;
    }
  }
}
