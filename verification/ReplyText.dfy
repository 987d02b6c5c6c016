/**
 * The reply grammar by its texts: what bytes are a reply, written down
 * without a parser, and that exactly these are read.
 */
module ReplyText {
  import opened Bytes
  import opened Decimal
  import opened Resp
  import opened Command

  /** No CRLF in a text. */
  predicate OneLine(s: seq<Byte>) {
    forall i :: 0 <= i < |s| - 1 ==> s[i] != 13 || s[i + 1] != 10
  }

  function Line(kind: char, s: seq<Byte>): (r: seq<Byte>)
    requires kind < 128 as char
    ensures |r| == |s| + 3
  {
    Ascii([kind]) + s + [13, 10]
  }

  /** A word of lower-case letters, or with any of them in upper case. */
  predicate AnyCase(s: seq<Byte>, word: string) {
    |s| == |word| && forall i :: 0 <= i < |s| ==> s[i] == word[i] as int || s[i] == word[i] as int - 32
  }

  predicate Signed(s: seq<Byte>, word: string) {
    |s| > 0 && s[0] == '-' as int && AnyCase(s[1..], word)
  }

  /** The text of a double: an infinity, not a number, or what the conversion takes. */
  predicate DoubleText(lim: Limits, d: Dbl, s: seq<Byte>) {
    && OneLine(s)
    && match d
       case PosInf => AnyCase(s, "inf")
       case NegInf => Signed(s, "inf")
       case NotANumber => AnyCase(s, "nan") || Signed(s, "nan")
       case Finite(bits) =>
         && !AnyCase(s, "inf") && !Signed(s, "inf") && !AnyCase(s, "nan") && !Signed(s, "nan")
         && lim.decimal(s) == Some(bits)
  }

  predicate PlainText(s: seq<Byte>) {
    forall i :: 0 <= i < |s| ==> s[i] != 13 && s[i] != 10
  }

  /** Digits, perhaps after a minus; none at all is allowed. */
  predicate BigText(s: seq<Byte>) {
    AllDigits(s) || (s[0] == '-' as int && AllDigits(s[1..]))
  }

  /** A length, so many bytes, and two more, which are not looked at. */
  predicate BulkText(kind: char, body: seq<Byte>, w: seq<Byte>)
    requires kind < 128 as char
  {
    var head := Line(kind, NatText(|body|)) + body;
    |body| <= LLONG_MAX && |w| == |head| + 2 && head <= w
  }

  function AggregateByte(kind: Kind): Option<char> {
    match kind
    case Arr => Some('*')
    case Map => Some('%')
    case Attr => Some('|')
    case Set => Some('~')
    case Push => Some('>')
    case _ => None
  }

  /** What an aggregate announces: its elements, or pairs of them. */
  predicate Counts(lim: Limits, kind: Kind, count: nat, n: nat) {
    && (if kind.Map? || kind.Attr? then n == 2 * count <= LLONG_MAX else n == count <= LLONG_MAX)
    && (lim.maxElements > 0 ==> count <= lim.maxElements)
  }

  /** A line by its first byte, and the reply that it is. */
  predicate LineOf(lim: Limits, kind: char, s: seq<Byte>, v: Reply) {
    && OneLine(s)
    && match v
       case IntReply(n) => kind == ':' && Int64(n) && s == IntText(n)
       case DoubleReply(d, t) => kind == ',' && s == t && DoubleText(lim, d, t)
       case NilReply => (kind == '_' && s == []) || (kind in "$=*%|~>" && s == Ascii("-1"))
       case BoolReply(b) => kind == '#' && |s| == 1 && s[0] in (if b then Ascii("tT") else Ascii("fF") + [0])
       case TextReply(k, t) =>
         && s == t
         && if k.Bignum? then kind == '(' && BigText(t)
            else PlainText(t) && ((k.Status? && kind == '+') || (k.Error? && kind == '-'))
       case _ => false
  }

  /** Bytes `w` are reply `v`: a line, a string with its length, or an aggregate with its count. */
  ghost predicate Encodes(lim: Limits, v: Reply, w: seq<Byte>)
    decreases v
  {
    || (exists kind: char, s :: kind < 128 as char && LineOf(lim, kind, s, v) && w == Line(kind, s))
    || (v.TextReply? && v.kind.Str? && BulkText('$', v.str, w))
    || (v.VerbReply? && |v.vtype| == 3 && BulkText('=', v.vtype + Ascii(":") + v.str, w))
    || (v.AggReply? && AggregateByte(v.kind).Some?
        && exists count: nat, k: nat ::
          && Counts(lim, v.kind, count, |v.elems|) && k <= |w|
          && w[..k] == Line(AggregateByte(v.kind).value, NatText(count)) && EncodesAll(lim, v.elems, w[k..]))
  }

  /** Bytes `w` are the replies `vs`, one after the other. */
  ghost predicate EncodesAll(lim: Limits, vs: seq<Reply>, w: seq<Byte>)
    decreases vs
  {
    if vs == [] then w == []
    else exists k: nat :: k <= |w| && Encodes(lim, vs[0], w[..k]) && EncodesAll(lim, vs[1..], w[k..])
  }

  // ------------------------------------------------------------------ the parts

  lemma LineShape(kind: char, s: seq<Byte>, rest: seq<Byte>)
    requires kind < 128 as char
    ensures var w := Line(kind, s) + rest;
      w[0] == kind as int && w[1..] == s + CRLF + rest && w[|s| + 3..] == rest && w[..|s| + 3] == Line(kind, s)
  {
    var w := Line(kind, s) + rest;
    assert w[1..] == s + CRLF + rest;
  }

  lemma FirstLine(s: seq<Byte>, rest: seq<Byte>)
    requires OneLine(s)
    ensures FirstCrlf(s + CRLF + rest) == Some(|s|) && (s + CRLF + rest)[..|s|] == s
  {
    var w := s + CRLF + rest;
    forall j | 0 <= j < |s|
      ensures !CrlfAt(w, j)
    {
      assert w[j] == s[j] && (j + 1 < |s| ==> w[j + 1] == s[j + 1]);
    }
    CrlfUnique(w, |s|);
  }

  /** A text up to its first CRLF is a line and what follows. */
  lemma SplitLine(s: seq<Byte>)
    requires s != [] && s[0] < 128 && FirstCrlf(s[1..]).Some?
    ensures var i := FirstCrlf(s[1..]).value;
      && i + 3 <= |s| && OneLine(s[1..i + 1]) && s[1..][..i] == s[1..i + 1]
      && s[..i + 3] == Line(s[0] as char, s[1..i + 1])
  {
    var t, i := s[1..], FirstCrlf(s[1..]).value;
    var line := s[1..i + 1];
    forall j: int | 0 <= j < |line| - 1
      ensures line[j] != 13 || line[j + 1] != 10
    {
      assert !CrlfAt(t, j);
    }
    assert t[i] == CR && t[i + 1] == LF;
  }

  lemma LineInjective(kind: char, s: seq<Byte>, kind': char, s': seq<Byte>)
    requires kind < 128 as char && kind' < 128 as char && Line(kind, s) == Line(kind', s')
    ensures kind == kind' && s == s'
  {
    LineShape(kind, s, []);
    LineShape(kind', s', []);
    assert Line(kind, s) + [] == Line(kind, s) && Line(kind', s') + [] == Line(kind', s');
    assert s == (s + CRLF + [])[..|s|] && s' == (s' + CRLF + [])[..|s'|];
  }

  lemma LineParses(lim: Limits, kind: char, k: Kind, s: seq<Byte>, rest: seq<Byte>)
    requires kind < 128 as char && KindOf(kind as int) == Some(k) && !k.IsBulk() && !k.IsAggregate() && OneLine(s)
    ensures ParseReply(lim, Line(kind, s) + rest) == match LineValue(lim, k, s) case Ok(v) => Done(v, |s| + 3) case Err(f) => Bad(f)
  {
    hide LineValue, FirstCrlf, KindOf;
    LineShape(kind, s, rest);
    FirstLine(s, rest);
    assert ParseTyped(lim, k, s + CRLF + rest) == ParseLine(lim, k, s + CRLF + rest);
  }

  lemma IntMeans(s: seq<Byte>, n: int)
    ensures ParseInt(s) == Some(n) <==> Int64(n) && s == IntText(n)
  {
    if Int64(n) && s == IntText(n) {
      ParseIntOfText(n);
    }
  }

  lemma DoubleMeans(lim: Limits, s: seq<Byte>, d: Dbl)
    requires OneLine(s)
    ensures ParseDouble(lim, s) == Some(d) <==> DoubleText(lim, d, s)
  {
    Letters(s, INF, "inf");
    Letters(s, NAN, "nan");
    Minus(s, INF, "inf");
    Minus(s, NAN, "nan");
    Apart(s);
    hide Spells, AnyCase, Signed, OneLine;
  }

  lemma Apart(s: seq<Byte>)
    ensures AnyCase(s, "inf") ==> |s| == 3 && !AnyCase(s, "nan")
    ensures AnyCase(s, "nan") ==> |s| == 3
    ensures Signed(s, "inf") ==> |s| == 4 && !Signed(s, "nan")
    ensures Signed(s, "nan") ==> |s| == 4
  {
    FirstLetter(s);
    if s != [] {
      FirstLetter(s[1..]);
    }
  }

  lemma FirstLetter(s: seq<Byte>)
    ensures AnyCase(s, "inf") ==> !AnyCase(s, "nan")
  {
    if AnyCase(s, "inf") {
      assert s[0] == 105 || s[0] == 73;
    }
  }

  lemma Letters(s: seq<Byte>, word: seq<Byte>, text: string)
    requires |word| == |text| && forall i :: 0 <= i < |word| ==> 97 <= word[i] <= 122 && text[i] as int == word[i]
    ensures Spells(s, word) <==> AnyCase(s, text)
  {
  }

  lemma Minus(s: seq<Byte>, word: seq<Byte>, text: string)
    requires |word| == |text| && forall i :: 0 <= i < |word| ==> 97 <= word[i] <= 122 && text[i] as int == word[i]
    ensures Spells(s, [MINUS] + word) <==> Signed(s, text)
  {
    if s != [] {
      Letters(s[1..], word, text);
      var w := [MINUS] + word;
      if Spells(s, w) {
        forall i | 0 <= i < |s| - 1
          ensures Lower(s[1..][i]) == word[i]
        {
          assert Lower(s[i + 1]) == w[i + 1];
        }
        assert Lower(s[0]) == w[0];
      }
      if Signed(s, text) {
        forall i | 0 <= i < |s|
          ensures Lower(s[i]) == w[i]
        {
          assert i > 0 ==> Lower(s[1..][i - 1]) == word[i - 1];
        }
      }
    }
  }

  lemma BoolMeans(s: seq<Byte>, b: bool)
    ensures IsBoolText(s) && (b <==> s[0] == 116 || s[0] == 84)
       <==> |s| == 1 && s[0] in (if b then Ascii("tT") else Ascii("fF") + [0])
  {
    assert Ascii("tT") == [116, 84] && Ascii("fF") + [0] == [102, 70, 0];
  }

  lemma BigMeans(s: seq<Byte>)
    ensures IsBignum(s) <==> BigText(s)
  {
    if IsBignum(s) && s != [] && s[0] == MINUS {
      forall i | 0 <= i < |s| - 1
        ensures IsDigit(s[1..][i])
      {
        assert s[1..][i] == s[i + 1];
      }
    }
    if s != [] && s[0] == MINUS && AllDigits(s[1..]) {
      forall i | 0 < i < |s|
        ensures IsDigit(s[i])
      {
        assert s[i] == s[1..][i - 1];
      }
    }
  }

  lemma KindBytes(kind: char, k: Kind)
    requires kind < 128 as char && KindOf(kind as int) == Some(k) && !k.IsBulk() && !k.IsAggregate()
    ensures (kind == ':' <==> k.Int?) && (kind == ',' <==> k.Double?) && (kind == '_' <==> k.Nil?) && (kind == '#' <==> k.Bool?)
    ensures (kind == '(' <==> k.Bignum?) && (kind == '+' <==> k.Status?) && (kind == '-' <==> k.Error?)
    ensures kind !in "$=*%|~>" && (k.Int? || k.Double? || k.Nil? || k.Bool? || k.Bignum? || k.Status? || k.Error?)
  {
  }

  /** What is read from the line of a leaf item. */
  lemma LineMeans(lim: Limits, kind: char, k: Kind, s: seq<Byte>, v: Reply)
    requires kind < 128 as char && KindOf(kind as int) == Some(k) && !k.IsBulk() && !k.IsAggregate() && OneLine(s)
    ensures LineValue(lim, k, s) == Ok(v) <==> LineOf(lim, kind, s, v)
  {
    KindBytes(kind, k);
    hide KindOf, DoubleText, IntText, ParseInt, ParseDouble, IsBignum, IsBoolText, BigText, OneLine, Ascii;
    match v
    case IntReply(n) => IntMeans(s, n);
    case DoubleReply(d, _) => DoubleMeans(lim, s, d);
    case BoolReply(b) => BoolMeans(s, b);
    case TextReply(_, _) => BigMeans(s);
    case _ =>
  }

  // ------------------------------------------------------------------ every encoding is read

  lemma BulkParses(lim: Limits, kind: char, k: Kind, body: seq<Byte>, w: seq<Byte>, rest: seq<Byte>)
    requires kind < 128 as char && KindOf(kind as int) == Some(k) && k.IsBulk() && BulkText(kind, body, w)
    ensures ParseReply(lim, w + rest) == if k.Verb? && !IsVerbatim(body) then Bad(BadVerbatim) else Done(BulkValue(k, body), |w|)
  {
    hide KindOf, FirstCrlf, ParseInt, NatText, AllDigits, BulkValue, IsVerbatim;
    var d := NatText(|body|);
    var s, tail := w + rest, w[|Line(kind, d)|..] + rest;
    assert s == Line(kind, d) + tail;
    assert tail[..|body|] == body;
    LineShape(kind, d, tail);
    NatTextReadsBack(|body|, tail);
    assert (d + CRLF + tail)[|d| + 2..|d| + 2 + |body|] == body;
    assert ParseTyped(lim, k, s[1..]) == ParseBulk(k, s[1..]);
  }

  lemma MinusOne()
    ensures Ascii("-1") == IntText(-1) && OneLine(Ascii("-1"))
  {
    assert NatText(1) == [49];
  }

  lemma NilParses(lim: Limits, kind: char, k: Kind, rest: seq<Byte>)
    requires kind < 128 as char && KindOf(kind as int) == Some(k) && (k.IsBulk() || k.IsAggregate())
    ensures ParseReply(lim, Line(kind, Ascii("-1")) + rest) == Done(NilReply, 5)
  {
    hide KindOf, FirstCrlf, ParseInt, IntText, OneLine, ParseSeq;
    MinusOne();
    var s := Ascii("-1");
    LineShape(kind, s, rest);
    FirstLine(s, rest);
    ParseIntOfText(-1);
  }

  lemma HeaderParses(lim: Limits, k: Kind, count: nat, n: nat, rest: seq<Byte>)
    requires Counts(lim, k, count, n)
    ensures ParseHeader(lim, k, NatText(count) + CRLF + rest) == Done(Some(n), |NatText(count)| + 2)
  {
    hide NatText, FirstCrlf, ParseInt, AllDigits;
    NatTextReadsBack(count, rest);
  }

  lemma AggregateParses(lim: Limits, k: Kind, count: nat, body: seq<Byte>, vs: seq<Reply>, m: nat)
    requires AggregateByte(k).Some? && Counts(lim, k, count, |vs|) && ParseSeq(lim, |vs|, body) == Done(vs, m)
    ensures var head := Line(AggregateByte(k).value, NatText(count));
      ParseReply(lim, head + body) == Done(AggReply(k, vs), |head| + m)
  {
    hide NatText, AllDigits, ParseHeader, ParseSeq;
    var d := NatText(count);
    LineShape(AggregateByte(k).value, d, body);
    HeaderParses(lim, k, count, |vs|, body);
    assert (d + CRLF + body)[|d| + 2..] == body;
    TypedAggregate(lim, k, d + CRLF + body, |d| + 2, vs, m);
  }

  lemma TypedAggregate(lim: Limits, k: Kind, t: seq<Byte>, h: nat, vs: seq<Reply>, m: nat)
    requires k.IsAggregate() && h <= |t| && ParseHeader(lim, k, t) == Done(Some(|vs|), h) && ParseSeq(lim, |vs|, t[h..]) == Done(vs, m)
    ensures ParseTyped(lim, k, t) == Done(AggReply(k, vs), h + m)
  {
    hide ParseHeader, ParseSeq;
  }

  lemma ReadsLine(lim: Limits, kind: char, s: seq<Byte>, v: Reply, rest: seq<Byte>)
    requires kind < 128 as char && LineOf(lim, kind, s, v)
    ensures ParseReply(lim, Line(kind, s) + rest) == Done(v, |s| + 3)
  {
    hide ParseReply, LineValue, OneLine;
    var k := KindOf(kind as int).value;
    if k.IsBulk() || k.IsAggregate() {
      NilParses(lim, kind, k, rest);
    } else {
      LineParses(lim, kind, k, s, rest);
      LineMeans(lim, kind, k, s, v);
    }
  }

  lemma ReadsBulk(lim: Limits, v: Reply, w: seq<Byte>, rest: seq<Byte>)
    requires || (v.TextReply? && v.kind.Str? && BulkText('$', v.str, w))
             || (v.VerbReply? && |v.vtype| == 3 && BulkText('=', v.vtype + Ascii(":") + v.str, w))
    ensures ParseReply(lim, w + rest) == Done(v, |w|)
  {
    hide ParseReply, BulkText;
    if v.TextReply? {
      BulkParses(lim, '$', Str, v.str, w, rest);
    } else {
      var body := v.vtype + Ascii(":") + v.str;
      BulkParses(lim, '=', Verb, body, w, rest);
      assert body[3] == 58 && body[..3] == v.vtype && body[4..] == v.str;
    }
  }

  /** Every encoding of a reply is read as that reply, whatever follows it. */
  lemma {:induction false} Reads(lim: Limits, v: Reply, w: seq<Byte>, rest: seq<Byte>)
    requires Encodes(lim, v, w)
    ensures ParseReply(lim, w + rest) == Done(v, |w|)
    decreases v
  {
    hide ParseReply, ParseSeq, BulkText, EncodesAll, LineOf, Counts;
    if kind: char, s :| kind < 128 as char && LineOf(lim, kind, s, v) && w == Line(kind, s) {
      ReadsLine(lim, kind, s, v, rest);
    } else if v.AggReply? {
      var count: nat, k: nat :| Counts(lim, v.kind, count, |v.elems|) && k <= |w|
        && w[..k] == Line(AggregateByte(v.kind).value, NatText(count)) && EncodesAll(lim, v.elems, w[k..]);
      ReadsAll(lim, v.elems, w[k..], rest);
      assert w + rest == w[..k] + (w[k..] + rest);
      AggregateParses(lim, v.kind, count, w[k..] + rest, v.elems, |w[k..]|);
    } else {
      ReadsBulk(lim, v, w, rest);
    }
  }

  lemma FirstOfAll(lim: Limits, vs: seq<Reply>, w: seq<Byte>) returns (head: seq<Byte>, more: seq<Byte>)
    requires vs != [] && EncodesAll(lim, vs, w)
    ensures w == head + more && Encodes(lim, vs[0], head) && EncodesAll(lim, vs[1..], more)
  {
    hide Encodes;
    var k: nat :| k <= |w| && Encodes(lim, vs[0], w[..k]) && EncodesAll(lim, vs[1..], w[k..]);
    head, more := w[..k], w[k..];
  }

  lemma {:induction false} ReadsAll(lim: Limits, vs: seq<Reply>, w: seq<Byte>, rest: seq<Byte>)
    requires EncodesAll(lim, vs, w)
    ensures ParseSeq(lim, |vs|, w + rest) == Done(vs, |w|)
    decreases vs
  {
    if vs != [] {
      hide ParseReply, ParseSeq, Encodes, EncodesAll;
      var head, more := FirstOfAll(lim, vs, w);
      Reads(lim, vs[0], head, more + rest);
      ReadsAll(lim, vs[1..], more, rest);
      OneMore(lim, vs, head, more + rest, |more|);
      Regroup(head, more, rest);
    }
  }

  lemma OneMore(lim: Limits, vs: seq<Reply>, w: seq<Byte>, tail: seq<Byte>, m: nat)
    requires vs != [] && ParseReply(lim, w + tail) == Done(vs[0], |w|) && ParseSeq(lim, |vs| - 1, tail) == Done(vs[1..], m)
    ensures ParseSeq(lim, |vs|, w + tail) == Done(vs, |w| + m)
  {
    hide ParseReply, ParseSeq;
    SeqUnfolds(lim, |vs|, w + tail);
    assert (w + tail)[|w|..] == tail;
    assert [vs[0]] + vs[1..] == vs;
  }

  // ------------------------------------------------------------------ only encodings are read

  lemma EncodedLine(lim: Limits, s: seq<Byte>)
    requires ParseReply(lim, s).Done? && !KindOf(s[0]).value.IsBulk() && !KindOf(s[0]).value.IsAggregate()
    ensures var p := ParseReply(lim, s); Encodes(lim, p.value, s[..p.used])
  {
    hide LineValue, OneLine, LineOf, EncodesAll, BulkText, FirstCrlf;
    var k := KindOf(s[0]).value;
    SplitLine(s);
    var i := FirstCrlf(s[1..]).value;
    LineMeans(lim, s[0] as char, k, s[1..i + 1], ParseReply(lim, s).value);
  }

  lemma NilLine(lim: Limits, kind: char, s: seq<Byte>)
    requires kind in "$=*%|~>" && s == IntText(-1)
    ensures LineOf(lim, kind, s, NilReply)
  {
    hide IntText;
    MinusOne();
  }

  lemma EncodedNil(lim: Limits, s: seq<Byte>, i: nat)
    requires s != [] && s[0] < 128 && s[0] as char in "$=*%|~>" && FirstCrlf(s[1..]) == Some(i) && ParseInt(s[1..][..i]) == Some(-1)
    ensures Encodes(lim, NilReply, s[..i + 3])
  {
    hide OneLine, EncodesAll, BulkText, FirstCrlf, ParseInt, IntText, LineOf;
    SplitLine(s);
    IntMeans(s[1..][..i], -1);
    NilLine(lim, s[0] as char, s[1..i + 1]);
  }

  lemma EncodedBulk(lim: Limits, s: seq<Byte>)
    requires ParseReply(lim, s).Done? && KindOf(s[0]).value.IsBulk()
    ensures var p := ParseReply(lim, s); Encodes(lim, p.value, s[..p.used])
  {
    hide OneLine, LineOf, EncodesAll, FirstCrlf, ParseInt, NatText, AllDigits;
    var k := KindOf(s[0]).value;
    assert ParseTyped(lim, k, s[1..]) == ParseBulk(k, s[1..]);
    SplitLine(s);
    var i := FirstCrlf(s[1..]).value;
    var n := ParseInt(s[1..][..i]).value;
    if n == -1 {
      EncodedNil(lim, s, i);
    } else {
      IntMeans(s[1..][..i], n);
      var body, w := s[1..][i + 2..i + 2 + n], s[..i + 5 + n];
      assert w[..i + 3 + n] == Line(s[0] as char, s[1..i + 1]) + body;
      if k.Verb? {
        assert body == body[..3] + Ascii(":") + body[4..];
      }
    }
  }

  lemma EncodedAggregate(lim: Limits, s: seq<Byte>, n: nat, h: nat, body: Parse<seq<Reply>>)
    requires s != [] && KindOf(s[0]).Some? && KindOf(s[0]).value.IsAggregate() && h <= |s| - 1
    requires ParseHeader(lim, KindOf(s[0]).value, s[1..]) == Done(Some(n), h)
    requires body.Done? && 1 + h + body.used <= |s| && |body.value| == n && EncodesAll(lim, body.value, s[1..][h..][..body.used])
    ensures Encodes(lim, AggReply(KindOf(s[0]).value, body.value), s[..1 + h + body.used])
  {
    hide OneLine, LineOf, EncodesAll, BulkText, FirstCrlf, ParseInt, NatText, AllDigits;
    var k := KindOf(s[0]).value;
    SplitLine(s);
    var i := FirstCrlf(s[1..]).value;
    var count := ParseInt(s[1..][..i]).value;
    IntMeans(s[1..][..i], count);
    var w := s[..1 + h + body.used];
    assert w[..h + 1] == s[..h + 1] && w[h + 1..] == s[1..][h..][..body.used];
    assert Counts(lim, k, count, n);
  }

  lemma AggregateDone(lim: Limits, k: Kind, s: seq<Byte>)
    requires s != [] && KindOf(s[0]) == Some(k) && k.IsAggregate() && ParseReply(lim, s).Done?
    ensures var h := ParseHeader(lim, k, s[1..]);
      && h.Done?
      && if h.value.None? then ParseReply(lim, s) == Done(NilReply, 1 + h.used)
         else
           var p := ParseSeq(lim, h.value.value, s[1..][h.used..]);
           p.Done? && ParseReply(lim, s) == Done(AggReply(k, p.value), 1 + h.used + p.used)
  {
    hide KindOf, ParseHeader, ParseSeq;
  }

  lemma EncodedNilHeader(lim: Limits, k: Kind, s: seq<Byte>, h: nat)
    requires s != [] && KindOf(s[0]) == Some(k) && k.IsAggregate() && ParseHeader(lim, k, s[1..]) == Done(None, h)
    ensures h + 1 <= |s| && Encodes(lim, NilReply, s[..h + 1])
  {
    hide FirstCrlf, ParseInt, Encodes;
    EncodedNil(lim, s, FirstCrlf(s[1..]).value);
  }

  lemma Starts(lim: Limits, s: seq<Byte>)
    requires ParseReply(lim, s).Done?
    ensures s != [] && KindOf(s[0]).Some?
  {
  }

  /** What is read as a reply is an encoding of it. */
  lemma {:induction false} Encoded(lim: Limits, s: seq<Byte>)
    requires ParseReply(lim, s).Done?
    ensures var p := ParseReply(lim, s); Encodes(lim, p.value, s[..p.used])
    decreases |s|, 0
  {
    hide ParseReply, ParseSeq, ParseHeader, Encodes, EncodesAll, KindOf;
    Starts(lim, s);
    var k := KindOf(s[0]).value;
    if k.IsBulk() {
      EncodedBulk(lim, s);
    } else if !k.IsAggregate() {
      EncodedLine(lim, s);
    } else {
      AggregateDone(lim, k, s);
      var h := ParseHeader(lim, k, s[1..]);
      if h.value.None? {
        EncodedNilHeader(lim, k, s, h.used);
      } else {
        EncodedAll(lim, h.value.value, s[1..][h.used..]);
        EncodedAggregate(lim, s, h.value.value, h.used, ParseSeq(lim, h.value.value, s[1..][h.used..]));
      }
    }
  }

  lemma {:induction false} EncodedAll(lim: Limits, n: nat, s: seq<Byte>)
    requires ParseSeq(lim, n, s).Done?
    ensures var p := ParseSeq(lim, n, s); EncodesAll(lim, p.value, s[..p.used])
    decreases |s|, 1
  {
    if n > 0 {
      hide ParseReply, ParseSeq, Encodes;
      SeqUnfolds(lim, n, s);
      var r := ParseReply(lim, s);
      var p, rest := ParseSeq(lim, n, s), ParseSeq(lim, n - 1, s[r.used..]);
      Encoded(lim, s);
      EncodedAll(lim, n - 1, s[r.used..]);
      var w := s[..p.used];
      assert w[..r.used] == s[..r.used] && w[r.used..] == s[r.used..][..rest.used];
      assert p.value[0] == r.value && p.value[1..] == rest.value;
    }
  }

  /** The grammar reads exactly the encodings: this reply from these bytes if and only if they encode it. */
  lemma ReadsExactly(lim: Limits, s: seq<Byte>, v: Reply, k: nat)
    ensures ParseReply(lim, s) == Done(v, k) <==> k <= |s| && Encodes(lim, v, s[..k])
  {
    hide ParseReply, Encodes;
    if ParseReply(lim, s) == Done(v, k) {
      Encoded(lim, s);
    }
    if k <= |s| && Encodes(lim, v, s[..k]) {
      Reads(lim, v, s[..k], s[k..]);
      assert s == s[..k] + s[k..];
    }
  }

  /** While an encoding has not arrived in full, the reader waits. */
  lemma PartWaits(lim: Limits, v: Reply, w: seq<Byte>, k: nat)
    requires Encodes(lim, v, w) && k < |w|
    ensures ParseReply(lim, w[..k]).More?
  {
    hide ParseReply, Encodes;
    Reads(lim, v, w, []);
    assert w + [] == w == w[..k] + w[k..];
    ReplyExtends(lim, w[..k], w[k..]);
  }

  // ------------------------------------------------------------------ errors

  /** No reply starts with any other byte. */
  lemma OtherBytes(lim: Limits, s: seq<Byte>)
    requires s != [] && s[0] !in Ascii("+-:,_#($=*%|~>")
    ensures ParseReply(lim, s) == Bad(BadTypeByte(s[0]))
  {
    var bytes := Ascii("+-:,_#($=*%|~>");
    assert forall i :: 0 <= i < 14 ==> bytes[i] in bytes;
    assert bytes == [43, 45, 58, 44, 95, 35, 40, 36, 61, 42, 37, 124, 126, 62];
  }

  /** The error for a line that encodes nothing. */
  function LineFault(kind: char): Fault {
    match kind
    case ':' => BadInteger
    case ',' => BadDouble
    case '_' => BadNil
    case '#' => BadBool
    case '(' => BadBignum
    case _ => BadSimple
  }

  lemma WrongLine(lim: Limits, kind: char, s: seq<Byte>, rest: seq<Byte>)
    requires kind in ":,_#(+-" && OneLine(s)
    requires forall v :: !LineOf(lim, kind, s, v)
    ensures ParseReply(lim, Line(kind, s) + rest) == Bad(LineFault(kind))
  {
    hide ParseReply, LineOf, OneLine;
    var k := KindOf(kind as int).value;
    LineParses(lim, kind, k, s, rest);
    if LineValue(lim, k, s).Ok? {
      LineMeans(lim, kind, k, s, LineValue(lim, k, s).value);
    }
  }

  /** A number beyond what a length or a count may be. */
  predicate OutOfRange(lim: Limits, kind: char, n: int) {
    n < -1 || (kind !in "$=" && ((lim.maxElements > 0 && n > lim.maxElements) || (kind in "%|" && n > LLONG_MAX / 2)))
  }

  /** The errors of a length or a count: no 64-bit number in shortest digits, or one out of range. */
  lemma WrongLength(lim: Limits, kind: char, s: seq<Byte>, rest: seq<Byte>)
    requires kind in "$=*%|~>" && OneLine(s)
    ensures var p, bulk := ParseReply(lim, Line(kind, s) + rest), kind in "$=";
      && ((forall n :: Int64(n) ==> s != IntText(n)) ==> p == Bad(if bulk then BadBulkLength else BadMultiLength))
      && (forall n :: Int64(n) && s == IntText(n) && OutOfRange(lim, kind, n) ==> p == Bad(if bulk then BulkOutOfRange else MultiOutOfRange))
  {
    hide OneLine, FirstCrlf, ParseInt, IntText, ParseSeq;
    var k := KindOf(kind as int).value;
    LineShape(kind, s, rest);
    FirstLine(s, rest);
    var n := ParseInt(s);
    if n.Some? {
      IntMeans(s, n.value);
    }
    forall m | Int64(m) && s == IntText(m)
      ensures n == Some(m)
    {
      IntMeans(s, m);
    }
  }

  // ------------------------------------------------------------------ printing

  /** What an aggregate of n elements announces. */
  function CountOf(kind: Kind, n: nat): nat {
    if kind.Map? || kind.Attr? then n / 2 else n
  }

  /** A reply that can be sent, to a reader with this element limit and conversion. */
  ghost predicate Printable(lim: Limits, v: Reply) {
    match v
    case IntReply(n) => Int64(n)
    case DoubleReply(d, s) => DoubleText(lim, d, s)
    case NilReply | BoolReply(_) => true
    case TextReply(k, s) => if k.Bignum? then BigText(s) else if k.Str? then |s| <= LLONG_MAX else (k.Status? || k.Error?) && PlainText(s)
    case VerbReply(t, s) => |t| == 3 && |s| + 4 <= LLONG_MAX
    case AggReply(k, vs) =>
      AggregateByte(k).Some? && Counts(lim, k, CountOf(k, |vs|), |vs|) && forall i :: 0 <= i < |vs| ==> Printable(lim, vs[i])
  }

  /** The bytes that a server sends for a reply. */
  function Print(v: Reply): seq<Byte> {
    match v
    case IntReply(n) => Line(':', IntText(n))
    case DoubleReply(_, s) => Line(',', s)
    case NilReply => Line('_', [])
    case BoolReply(b) => Line('#', Ascii(if b then "t" else "f"))
    case TextReply(k, s) =>
      if k.Str? then Line('$', NatText(|s|)) + s + CRLF
      else Line(if k.Bignum? then '(' else if k.Error? then '-' else '+', s)
    case VerbReply(t, s) =>
      var body := t + Ascii(":") + s;
      Line('=', NatText(|body|)) + body + CRLF
    case AggReply(k, vs) => Line(if AggregateByte(k).Some? then AggregateByte(k).value else '*', NatText(CountOf(k, |vs|))) + PrintAll(vs)
  }

  function PrintAll(vs: seq<Reply>): seq<Byte> {
    if vs == [] then [] else Print(vs[0]) + PrintAll(vs[1..])
  }

  lemma IntLine(n: int)
    ensures OneLine(IntText(n))
  {
    hide NatText;
  }

  lemma PlainLine(s: seq<Byte>)
    requires PlainText(s) || BigText(s)
    ensures OneLine(s)
  {
    if s != [] && !PlainText(s) && !AllDigits(s) {
      assert forall i :: 0 < i < |s| ==> s[i] == s[1..][i - 1];
    }
  }

  lemma PrintsLine(lim: Limits, v: Reply)
    requires Printable(lim, v) && !v.AggReply? && !v.VerbReply? && !(v.TextReply? && v.kind.Str?)
    ensures Encodes(lim, v, Print(v))
  {
    hide IntText, NatText, AllDigits, BigText, DoubleText;
    match v
    case IntReply(n) =>
      IntLine(n);
      assert LineOf(lim, ':', IntText(n), v);
    case DoubleReply(d, s) =>
      assert OneLine(s) by { DoubleLine(lim, d, s); }
      assert LineOf(lim, ',', s, v);
    case NilReply => assert LineOf(lim, '_', [], v);
    case BoolReply(b) => assert LineOf(lim, '#', Ascii(if b then "t" else "f"), v);
    case TextReply(k, s) =>
      PlainLine(s);
      assert LineOf(lim, if k.Bignum? then '(' else if k.Error? then '-' else '+', s, v);
  }

  lemma DoubleLine(lim: Limits, d: Dbl, s: seq<Byte>)
    requires DoubleText(lim, d, s)
    ensures OneLine(s)
  {
  }

  lemma PrintsBulk(kind: char, body: seq<Byte>)
    requires kind < 128 as char && |body| <= LLONG_MAX
    ensures BulkText(kind, body, Line(kind, NatText(|body|)) + body + CRLF)
  {
    hide NatText, AllDigits, Line;
  }

  lemma AggregateEncodes(lim: Limits, k: Kind, vs: seq<Reply>, w: seq<Byte>)
    requires AggregateByte(k).Some? && Counts(lim, k, CountOf(k, |vs|), |vs|) && EncodesAll(lim, vs, w)
    ensures Encodes(lim, AggReply(k, vs), Line(AggregateByte(k).value, NatText(CountOf(k, |vs|))) + w)
  {
    hide NatText, AllDigits, EncodesAll, LineOf, BulkText;
    var head := Line(AggregateByte(k).value, NatText(CountOf(k, |vs|)));
    assert (head + w)[..|head|] == head && (head + w)[|head|..] == w;
  }

  /** What is printed is an encoding. */
  lemma {:induction false} PrintEncodes(lim: Limits, v: Reply)
    requires Printable(lim, v)
    ensures Encodes(lim, v, Print(v))
    decreases v
  {
    hide Encodes, EncodesAll;
    match v
    case VerbReply(t, s) =>
      PrintsBulk('=', t + Ascii(":") + s);
      BulkEncodes(lim, v, Print(v));
    case AggReply(k, vs) =>
      PrintAllEncodes(lim, vs);
      AggregateEncodes(lim, k, vs, PrintAll(vs));
    case TextReply(k, s) =>
      if k.Str? {
        PrintsBulk('$', s);
        BulkEncodes(lim, v, Print(v));
      } else {
        PrintsLine(lim, v);
      }
    case _ => PrintsLine(lim, v);
  }

  lemma BulkEncodes(lim: Limits, v: Reply, w: seq<Byte>)
    requires || (v.TextReply? && v.kind.Str? && BulkText('$', v.str, w))
             || (v.VerbReply? && |v.vtype| == 3 && BulkText('=', v.vtype + Ascii(":") + v.str, w))
    ensures Encodes(lim, v, w)
  {
    hide BulkText;
  }

  lemma {:induction false} PrintAllEncodes(lim: Limits, vs: seq<Reply>)
    requires forall i :: 0 <= i < |vs| ==> Printable(lim, vs[i])
    ensures EncodesAll(lim, vs, PrintAll(vs))
    decreases vs
  {
    if vs != [] {
      hide Encodes, Print, Printable;
      PrintEncodes(lim, vs[0]);
      PrintAllEncodes(lim, vs[1..]);
      var w, k := PrintAll(vs), |Print(vs[0])|;
      assert w[..k] == Print(vs[0]) && w[k..] == PrintAll(vs[1..]);
    }
  }

  /** Printing and reading are inverse, for every reply tree that can be sent. */
  lemma RoundTrip(lim: Limits, v: Reply, rest: seq<Byte>)
    requires Printable(lim, v)
    ensures ParseReply(lim, Print(v) + rest) == Done(v, |Print(v)|)
  {
    PrintEncodes(lim, v);
    Reads(lim, v, Print(v), rest);
  }

  /** A stream of replies is read as these, and then what follows. */
  lemma {:induction false} StreamReads(lim: Limits, vs: seq<Reply>, w: seq<Byte>, rest: seq<Byte>)
    requires EncodesAll(lim, vs, w)
    ensures ParseAll(lim, w + rest) == (vs + ParseAll(lim, rest).0, ParseAll(lim, rest).1)
    decreases vs
  {
    hide ParseReply, ParseAll, Encodes;
    var (later, ending) := ParseAll(lim, rest);
    if vs == [] {
      assert w + rest == rest && vs + later == later;
    } else {
      hide EncodesAll;
      var head, more := FirstOfAll(lim, vs, w);
      Reads(lim, vs[0], head, more + rest);
      StreamReads(lim, vs[1..], more, rest);
      NextRead(lim, vs[0], head, more + rest);
      Regroup(head, more, rest);
      assert [vs[0]] + (vs[1..] + later) == vs + later;
    }
  }

  lemma NextRead(lim: Limits, v: Reply, w: seq<Byte>, tail: seq<Byte>)
    requires ParseReply(lim, w + tail) == Done(v, |w|)
    ensures ParseAll(lim, w + tail) == ([v] + ParseAll(lim, tail).0, ParseAll(lim, tail).1)
  {
    hide ParseReply;
    assert (w + tail)[|w|..] == tail;
  }
}
