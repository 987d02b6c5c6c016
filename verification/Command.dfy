/** Command encoding: two printers with a pre-computed length (src/valkey.c, src/sds.c), and
    the proof that the reply reader undoes them. */
module Command {
  import opened Bytes
  import opened Decimal
  import opened Resp

  function Bulk(arg: seq<Byte>): seq<Byte> {
    [DOLLAR] + NatText(|arg|) + CRLF + arg + CRLF
  }

  function Bulks(argv: seq<seq<Byte>>): seq<Byte> {
    if argv == [] then [] else Bulks(argv[..|argv| - 1]) + Bulk(argv[|argv| - 1])
  }

  function Header(argc: nat): seq<Byte> {
    [STAR] + NatText(argc) + CRLF
  }

  /** The unified request format: an array of bulk strings. */
  function Encode(argv: seq<seq<Byte>>): seq<Byte> {
    Header(|argv|) + Bulks(argv)
  }

  /** `countDigits`, four digits at a time. */
  method CountDigits(n: nat) returns (result: nat)
    ensures result == |NatText(n)|
  {
    var v := n;
    result := 1;
    while true
      invariant result >= 1 && |NatText(n)| == |NatText(v)| + result - 1
      decreases v
    {
      if v < 10 {
        return;
      }
      if v < 100 {
        return result + 1;
      }
      if v < 1000 {
        DigitsPerDivision(v, 100);
        return result + 2;
      }
      if v < 10000 {
        DigitsPerDivision(v, 100);
        return result + 3;
      }
      DigitsPerDivision(v, 10000);
      v := v / 10000;
      result := result + 4;
    }
  }

  lemma DigitsPerDivision(v: nat, d: nat)
    requires d == 100 || d == 10000 || d == 1000000000000
    requires v >= d
    ensures |NatText(v)| == |NatText(v / d)| + (if d == 100 then 2 else if d == 10000 then 4 else 12)
  {
    if d == 100 {
      assert v / 10 / 10 == v / 100;
    } else if d == 10000 {
      DigitsPerDivision(v, 100);
      DigitsPerDivision(v / 100, 100);
      assert v / 100 / 100 == v / 10000;
    } else {
      DigitsPerDivision(v, 10000);
      DigitsPerDivision(v / 10000, 10000);
      DigitsPerDivision(v / 10000 / 10000, 10000);
      assert v / 10000 / 10000 / 10000 == v / 1000000000000;
    }
  }

  method BulkLen(len: nat) returns (r: nat)
    ensures forall arg: seq<Byte> :: |arg| == len ==> r == |Bulk(arg)|
  {
    var d := CountDigits(len);
    r := 1 + d + 2 + len + 2;
  }

  /** The number of bytes both printers reserve. */
  method TotalLength(argv: seq<seq<Byte>>) returns (totlen: nat)
    ensures totlen == |Encode(argv)|
  {
    var d := CountDigits(|argv|);
    totlen := 1 + d + 2;
    var j := 0;
    while j < |argv|
      invariant 0 <= j <= |argv| && totlen == |Header(|argv|)| + |Bulks(argv[..j])|
    {
      var n := BulkLen(|argv[j]|);
      totlen := totlen + n;
      BulksStep(argv, j);
      j := j + 1;
    }
    assert argv[..j] == argv;
  }

  lemma BulksStep(argv: seq<seq<Byte>>, j: nat)
    requires j < |argv|
    ensures Bulks(argv[..j + 1]) == Bulks(argv[..j]) + Bulk(argv[j])
  {
    assert argv[..j + 1][..j] == argv[..j];
  }

  /** Every prefix of the arguments takes a prefix of the space. */
  lemma {:induction false} BulksFit(argv: seq<seq<Byte>>, j: nat)
    requires j <= |argv|
    ensures |Bulks(argv[..j])| <= |Bulks(argv)|
    decreases |argv| - j
  {
    if j == |argv| {
      assert argv[..j] == argv;
    } else {
      BulksStep(argv, j);
      BulksFit(argv, j + 1);
    }
  }

  /** Store text at cmd[pos..], as sprintf and memcpy do. */
  method Put(cmd: array<Byte>, pos: nat, text: seq<Byte>) returns (end: nat)
    requires pos + |text| <= cmd.Length
    modifies cmd
    ensures end == pos + |text| && cmd[..end] == old(cmd[..pos]) + text
  {
    var i := 0;
    while i < |text|
      invariant 0 <= i <= |text| && cmd[..pos + i] == old(cmd[..pos]) + text[..i]
    {
      cmd[pos + i] := text[i];
      i := i + 1;
    }
    end := pos + i;
  }

  /** `valkeyFormatCommandArgv`: fills exactly the reserved bytes and a terminator. */
  method FormatCommandArgv(argv: seq<seq<Byte>>) returns (cmd: array<Byte>, totlen: nat)
    ensures fresh(cmd) && cmd.Length == totlen + 1 && cmd[totlen] == 0
    ensures cmd[..totlen] == Encode(argv)
  {
    totlen := TotalLength(argv);
    cmd := new Byte[totlen + 1](_ => 0);
    var pos := Put(cmd, 0, Header(|argv|));
    var j := 0;
    while j < |argv|
      invariant 0 <= j <= |argv| && cmd.Length == totlen + 1
      invariant pos == |Header(|argv|)| + |Bulks(argv[..j])| <= totlen
      invariant cmd[..pos] == Header(|argv|) + Bulks(argv[..j])
    {
      BulksStep(argv, j);
      BulksFit(argv, j + 1);
      Regroup(Header(|argv|), Bulks(argv[..j]), Bulk(argv[j]));
      pos := PutBulk(cmd, pos, argv[j]);
      j := j + 1;
    }
    assert argv[..j] == argv;
    cmd[pos] := 0;
  }

  method PutBulk(cmd: array<Byte>, start: nat, arg: seq<Byte>) returns (pos: nat)
    requires start + |Bulk(arg)| <= cmd.Length
    modifies cmd
    ensures pos == start + |Bulk(arg)| && cmd[..pos] == old(cmd[..start]) + Bulk(arg)
  {
    pos := Put(cmd, start, [DOLLAR] + NatText(|arg|) + CRLF);
    pos := Put(cmd, pos, arg);
    pos := Put(cmd, pos, CRLF);
  }

  lemma NoBulks(argv: seq<seq<Byte>>)
    ensures Bulks(argv[..0]) == [] && Header(|argv|) + [] == Header(|argv|)
  {
  }

  lemma {:induction false} BulkAfter(cmd: seq<Byte>, arg: seq<Byte>)
    ensures cmd + [DOLLAR] + NatText(|arg|) + CRLF + arg + CRLF == cmd + Bulk(arg)
  {
    hide NatText;
    var head := [DOLLAR] + NatText(|arg|) + CRLF;
    RegroupFour(cmd, [DOLLAR], NatText(|arg|), CRLF, arg);
    Regroup(cmd, head + arg, CRLF);
  }

  /** `valkeyFormatSdsCommandArgv`: appends to a growing string, in the space reserved for it. */
  method FormatSdsCommandArgv(argv: seq<seq<Byte>>) returns (cmd: seq<Byte>, totlen: nat)
    ensures cmd == Encode(argv) && totlen == |cmd|
  {
    hide NatText, Bulks, AllDigits;
    totlen := TotalLength(argv);
    cmd := [STAR] + NatText(|argv|) + CRLF;
    NoBulks(argv);
    var j := 0;
    while j < |argv|
      invariant 0 <= j <= |argv| && cmd == Header(|argv|) + Bulks(argv[..j])
    {
      BulksStep(argv, j);
      BulkAfter(cmd, argv[j]);
      Regroup(Header(|argv|), Bulks(argv[..j]), Bulk(argv[j]));
      cmd := cmd + [DOLLAR] + NatText(|argv[j]|) + CRLF;
      cmd := cmd + argv[j];
      cmd := cmd + CRLF;
      j := j + 1;
    }
    assert argv[..j] == argv;
  }

  // ------------------------------------------------------------------ reading it back

  function Strings(argv: seq<seq<Byte>>): seq<Reply> {
    seq(|argv|, i requires 0 <= i < |argv| => TextReply(Str, argv[i]))
  }

  lemma TextBeforeCrlf(text: seq<Byte>, rest: seq<Byte>)
    requires CR !in text
    ensures FirstCrlf(text + CRLF + rest) == Some(|text|)
    ensures (text + CRLF + rest)[..|text|] == text
  {
    var s := text + CRLF + rest;
    assert forall j :: 0 <= j < |text| ==> s[j] == text[j];
    CrlfUnique(s, |text|);
  }

  lemma NatTextReadsBack(n: nat, rest: seq<Byte>)
    requires n <= LLONG_MAX
    ensures var s := NatText(n) + CRLF + rest;
            FirstCrlf(s) == Some(|NatText(n)|) && ParseInt(s[..|NatText(n)|]) == Some(n)
  {
    assert CR !in NatText(n);
    TextBeforeCrlf(NatText(n), rest);
    ParseIntOfText(n);
  }

  lemma BulkReadsBack(lim: Limits, arg: seq<Byte>, rest: seq<Byte>)
    requires |arg| <= LLONG_MAX
    ensures ParseReply(lim, Bulk(arg) + rest) == Done(TextReply(Str, arg), |Bulk(arg)|)
  {
    hide NatText, AllDigits, FirstCrlf, ParseInt, ParseSeq;
    var s := Bulk(arg) + rest;
    var d, t := NatText(|arg|), arg + CRLF + rest;
    NatTextReadsBack(|arg|, t);
    assert s[1..] == d + CRLF + t;
    assert (d + CRLF + t)[|d| + 2..|d| + 2 + |arg|] == arg;
    assert ParseBulk(Str, s[1..]) == Done(TextReply(Str, arg), |Bulk(arg)| - 1);
  }

  /** Arguments k.. of argv, encoded. */
  function BulksFrom(argv: seq<seq<Byte>>, k: nat): seq<Byte>
    requires k <= |argv|
    decreases |argv| - k
  {
    if k == |argv| then [] else Bulk(argv[k]) + BulksFrom(argv, k + 1)
  }

  lemma {:induction false} BulksSplit(argv: seq<seq<Byte>>, k: nat)
    requires k <= |argv|
    ensures Bulks(argv[..k]) + BulksFrom(argv, k) == Bulks(argv)
    decreases |argv| - k
  {
    if k == |argv| {
      assert argv[..k] == argv;
    } else {
      hide Bulks, Bulk;
      BulksSplit(argv, k + 1);
      BulksStep(argv, k);
      Regroup(Bulks(argv[..k]), Bulk(argv[k]), BulksFrom(argv, k + 1));
    }
  }

  lemma {:induction false} BulksReadBack(lim: Limits, argv: seq<seq<Byte>>, k: nat, rest: seq<Byte>)
    requires k <= |argv| && forall i :: 0 <= i < |argv| ==> |argv[i]| <= LLONG_MAX
    ensures ParseSeq(lim, |argv| - k, BulksFrom(argv, k) + rest) == Done(Strings(argv)[k..], |BulksFrom(argv, k)|)
    decreases |argv| - k
  {
    if k < |argv| {
      var s, tail := BulksFrom(argv, k) + rest, BulksFrom(argv, k + 1) + rest;
      assert s == Bulk(argv[k]) + tail;
      BulkReadsBack(lim, argv[k], tail);
      BulksReadBack(lim, argv, k + 1, rest);
      SeqUnfolds(lim, |argv| - k, s);
      assert s[|Bulk(argv[k])|..] == tail;
      assert Strings(argv)[k..] == [TextReply(Str, argv[k])] + Strings(argv)[k + 1..];
    }
  }

  /** The reader turns an encoded request, whatever follows it, into one array of the arguments -
      exactly when its element limit allows that many. */
  lemma RoundTrip(lim: Limits, argv: seq<seq<Byte>>, rest: seq<Byte>)
    requires |argv| <= LLONG_MAX && forall i :: 0 <= i < |argv| ==> |argv[i]| <= LLONG_MAX
    ensures ParseReply(lim, Encode(argv) + rest)
         == if lim.maxElements > 0 && |argv| > lim.maxElements then Bad(MultiOutOfRange)
            else Done(AggReply(Arr, Strings(argv)), |Encode(argv)|)
  {
    EncodeShape(argv, rest);
    var body := Bulks(argv) + rest;
    HeaderReadsBack(lim, |argv|, body);
    AllBulksReadBack(lim, argv, rest);
    ArrayReadsBack(lim, NatText(|argv|) + CRLF + body, body, |argv|, |Header(|argv|)| - 1, Strings(argv), |Bulks(argv)|);
  }

  lemma {:induction false} EncodeShape(argv: seq<seq<Byte>>, rest: seq<Byte>)
    ensures var t := NatText(|argv|) + CRLF + (Bulks(argv) + rest);
            && Encode(argv) + rest == [STAR] + t
            && |Header(|argv|)| - 1 <= |t| && t[|Header(|argv|)| - 1..] == Bulks(argv) + rest
  {
    hide NatText, Bulks;
    var x := NatText(|argv|);
    Regroup([STAR] + x + CRLF, Bulks(argv), rest);
    Regroup([STAR], x + CRLF, Bulks(argv) + rest);
    Regroup([STAR], x, CRLF);
    DropFirst(x + CRLF, Bulks(argv) + rest);
  }

  lemma ArrayReadsBack(lim: Limits, t: seq<Byte>, body: seq<Byte>, n: nat, k: nat, vs: seq<Reply>, m: nat)
    requires k <= |t| && t[k..] == body
    requires var h := ParseHeader(lim, Arr, t); h == Done(Some(n), k) || h == Bad(MultiOutOfRange)
    requires ParseSeq(lim, n, body) == Done(vs, m)
    ensures ParseReply(lim, [STAR] + t)
         == if ParseHeader(lim, Arr, t).Done? then Done(AggReply(Arr, vs), 1 + k + m) else Bad(MultiOutOfRange)
  {
    hide ParseHeader, ParseSeq;
    assert ([STAR] + t)[1..] == t;
    assert ParseTyped(lim, Arr, t)
        == if ParseHeader(lim, Arr, t).Done? then Shift(k, Assemble(Arr, ParseSeq(lim, n, body))) else Bad(MultiOutOfRange);
  }

  lemma AllBulksReadBack(lim: Limits, argv: seq<seq<Byte>>, rest: seq<Byte>)
    requires forall i :: 0 <= i < |argv| ==> |argv[i]| <= LLONG_MAX
    ensures ParseSeq(lim, |argv|, Bulks(argv) + rest) == Done(Strings(argv), |Bulks(argv)|)
  {
    BulksSplit(argv, 0);
    assert Bulks(argv[..0]) == [] && BulksFrom(argv, 0) == Bulks(argv);
    BulksReadBack(lim, argv, 0, rest);
    assert Strings(argv)[0..] == Strings(argv);
  }

  lemma HeaderReadsBack(lim: Limits, n: nat, body: seq<Byte>)
    requires n <= LLONG_MAX
    ensures ParseHeader(lim, Arr, NatText(n) + CRLF + body)
         == if lim.maxElements > 0 && n > lim.maxElements then Bad(MultiOutOfRange) else Done(Some(n), |Header(n)| - 1)
  {
    NatTextReadsBack(n, body);
  }

  /** Different requests are sent as different bytes, and neither is a prefix of the other. */
  lemma EncodingPrefixFree(a: seq<seq<Byte>>, b: seq<seq<Byte>>, rest: seq<Byte>)
    requires |a| <= LLONG_MAX && forall i :: 0 <= i < |a| ==> |a[i]| <= LLONG_MAX
    requires |b| <= LLONG_MAX && forall i :: 0 <= i < |b| ==> |b[i]| <= LLONG_MAX
    requires Encode(a) + rest == Encode(b)
    ensures a == b && rest == []
  {
    var lim := Limits(0, _ => None);
    RoundTrip(lim, a, rest);
    RoundTrip(lim, b, []);
    assert Encode(b) + [] == Encode(b);
    assert Strings(a) == Strings(b);
    forall i | 0 <= i < |a| ensures a[i] == b[i] {
      assert Strings(a)[i] == Strings(b)[i];
    }
  }
}
