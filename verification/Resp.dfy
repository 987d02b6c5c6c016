/** The RESP2/RESP3 reply grammar as a recursive-descent parser on byte strings: the
    reference against which the reader's explicit-stack machine is proved. */
module Resp {
  import opened Bytes
  import opened Decimal

  datatype Kind = Str | Arr | Int | Nil | Status | Error | Double | Bool | Map | Set | Attr | Push | Bignum | Verb
  {
    predicate IsAggregate() {
      Arr? || Map? || Set? || Attr? || Push?
    }

    predicate IsBulk() {
      Str? || Verb?
    }

    /** Maps and attributes announce pairs, so twice as many elements follow. */
    predicate IsPaired() {
      Map? || Attr?
    }
  }

  datatype Dbl = PosInf | NegInf | NotANumber | Finite(bits: nat)

  datatype Reply =
    | IntReply(v: int)
    | DoubleReply(d: Dbl, str: seq<Byte>)
    | NilReply
    | BoolReply(b: bool)
    | TextReply(kind: Kind, str: seq<Byte>)
    | VerbReply(vtype: seq<Byte>, str: seq<Byte>)
    | AggReply(kind: Kind, elems: seq<Reply>)

  /** Every protocol error the reader distinguishes by its message. */
  datatype Fault =
    | BadInteger | BadDouble | BadNil | BadBool | BadBignum | BadSimple
    | BadBulkLength | BulkOutOfRange | BadVerbatim
    | BadMultiLength | MultiOutOfRange | BadTypeByte(b: Byte)

  /** Reader settings: the element limit (none when not positive) and the decimal-to-double
      conversion, which yields the bits of a finite double or rejects the text. */
  datatype Limits = Limits(maxElements: int, decimal: seq<Byte> -> Option<nat>)

  /** `More`: the bytes are a proper prefix of some reply. `used` counts consumed bytes. */
  datatype Parse<+T> = Done(value: T, used: nat) | More | Bad(fault: Fault)

  function Shift<T>(k: nat, p: Parse<T>): Parse<T> {
    if p.Done? then Done(p.value, k + p.used) else p
  }

  function KindOf(b: Byte): Option<Kind> {
    if b == 45 then Some(Error)
    else if b == 43 then Some(Status)
    else if b == 58 then Some(Int)
    else if b == 44 then Some(Double)
    else if b == 95 then Some(Nil)
    else if b == 36 then Some(Str)
    else if b == 42 then Some(Arr)
    else if b == 37 then Some(Map)
    else if b == 124 then Some(Attr)
    else if b == 126 then Some(Set)
    else if b == 35 then Some(Bool)
    else if b == 61 then Some(Verb)
    else if b == 62 then Some(Push)
    else if b == 40 then Some(Bignum)
    else None
  }

  predicate CrlfAt(s: seq<Byte>, i: int) {
    0 <= i < |s| - 1 && s[i] == CR && s[i + 1] == LF
  }

  function FirstCrlf(s: seq<Byte>): (r: Option<nat>)
    ensures r.Some? ==> CrlfAt(s, r.value) && forall j :: j < r.value ==> !CrlfAt(s, j)
    ensures r.None? ==> forall j :: !CrlfAt(s, j)
  {
    if |s| < 2 then None
    else if CrlfAt(s, 0) then Some(0)
    else
      var r := FirstCrlf(s[1..]);
      assert forall j :: 1 <= j ==> CrlfAt(s, j) == CrlfAt(s[1..], j - 1);
      if r.Some? then Some(r.value + 1) else None
  }

  lemma CrlfUnique(s: seq<Byte>, i: nat)
    requires CrlfAt(s, i) && forall j :: j < i ==> !CrlfAt(s, j)
    ensures FirstCrlf(s) == Some(i)
  {
  }

  function Lower(b: Byte): Byte {
    if 65 <= b <= 90 then b + 32 else b
  }

  /** Case-insensitive comparison with a lower-case word. */
  predicate Spells(s: seq<Byte>, word: seq<Byte>)
  {
    |s| == |word| && forall i :: 0 <= i < |s| ==> Lower(s[i]) == word[i]
  }

  const INF: seq<Byte> := [105, 110, 102]
  const NAN: seq<Byte> := [110, 97, 110]

  function ParseDouble(lim: Limits, s: seq<Byte>): Option<Dbl> {
    if Spells(s, INF) then Some(PosInf)
    else if Spells(s, [MINUS] + INF) then Some(NegInf)
    else if Spells(s, NAN) || Spells(s, [MINUS] + NAN) then Some(NotANumber)
    else
      var bits := lim.decimal(s);
      if bits.Some? then Some(Finite(bits.value)) else None
  }

  /** An optional minus and then digits only; the empty text and a lone minus pass. */
  predicate IsBignum(s: seq<Byte>) {
    forall i :: 0 <= i < |s| ==> IsDigit(s[i]) || (i == 0 && s[i] == MINUS)
  }

  predicate IsSimple(s: seq<Byte>) {
    CR !in s && LF !in s
  }

  /** One of "tTfF" - or a NUL byte, which the search in that C string also finds. */
  predicate IsBoolText(s: seq<Byte>) {
    |s| == 1 && s[0] in [116, 84, 102, 70, 0]
  }

  ghost function LineValue(lim: Limits, kind: Kind, s: seq<Byte>): Result<Reply, Fault> {
    match kind
    case Int =>
      var v := ParseInt(s);
      if v.Some? then Ok(IntReply(v.value)) else Err(BadInteger)
    case Double =>
      var d := ParseDouble(lim, s);
      if d.Some? then Ok(DoubleReply(d.value, s)) else Err(BadDouble)
    case Nil => if s == [] then Ok(NilReply) else Err(BadNil)
    case Bool => if IsBoolText(s) then Ok(BoolReply(s[0] == 116 || s[0] == 84)) else Err(BadBool)
    case Bignum => if IsBignum(s) then Ok(TextReply(kind, s)) else Err(BadBignum)
    case _ => if IsSimple(s) then Ok(TextReply(kind, s)) else Err(BadSimple)
  }

  ghost function ParseLine(lim: Limits, kind: Kind, s: seq<Byte>): (p: Parse<Reply>)
    ensures p.Done? ==> 0 < p.used <= |s|
  {
    var i := FirstCrlf(s);
    if i.None? then More
    else
      var v := LineValue(lim, kind, s[..i.value]);
      if v.Ok? then Done(v.value, i.value + 2) else Bad(v.error)
  }

  /** A verbatim string starts with a three-byte format and a colon. */
  predicate IsVerbatim(body: seq<Byte>) {
    |body| >= 4 && body[3] == 58
  }

  function BulkValue(kind: Kind, body: seq<Byte>): Reply
    requires kind.Verb? ==> IsVerbatim(body)
  {
    if kind.Verb? then VerbReply(body[..3], body[4..]) else TextReply(kind, body)
  }

  ghost function ParseBulk(kind: Kind, s: seq<Byte>): (p: Parse<Reply>)
    ensures p.Done? ==> 0 < p.used <= |s|
  {
    var i := FirstCrlf(s);
    if i.None? then More
    else
      var n := ParseInt(s[..i.value]);
      var start := i.value + 2;
      if n.None? then Bad(BadBulkLength)
      else if n.value < -1 then Bad(BulkOutOfRange)
      else if n.value == -1 then Done(NilReply, start)
      else if start + n.value + 2 > |s| then More
      else
        var body := s[start..start + n.value];
        if kind.Verb? && !IsVerbatim(body) then Bad(BadVerbatim)
        else Done(BulkValue(kind, body), start + n.value + 2)
  }

  /** The number of elements an aggregate's header line announces; `None` is the nil aggregate. */
  ghost function HeaderValue(lim: Limits, kind: Kind, line: seq<Byte>): Result<Option<nat>, Fault> {
    var n := ParseInt(line);
    if n.None? then Err(BadMultiLength)
    else if n.value < -1 || (lim.maxElements > 0 && n.value > lim.maxElements) then Err(MultiOutOfRange)
    else if n.value == -1 then Ok(None)
    else if kind.IsPaired() && n.value > LLONG_MAX / 2 then Err(MultiOutOfRange)
    else Ok(Some(if kind.IsPaired() then n.value * 2 else n.value))
  }

  ghost function ParseHeader(lim: Limits, kind: Kind, s: seq<Byte>): (p: Parse<Option<nat>>)
    ensures p.Done? ==> 0 < p.used <= |s|
  {
    var i := FirstCrlf(s);
    if i.None? then More
    else
      var n := HeaderValue(lim, kind, s[..i.value]);
      if n.Ok? then Done(n.value, i.value + 2) else Bad(n.error)
  }

  /** A reply whose type byte has been read already. */
  ghost function ParseTyped(lim: Limits, kind: Kind, s: seq<Byte>): (p: Parse<Reply>)
    ensures p.Done? ==> 0 < p.used <= |s|
    decreases |s|, 2
  {
    if kind.IsBulk() then ParseBulk(kind, s)
    else if !kind.IsAggregate() then ParseLine(lim, kind, s)
    else
      match ParseHeader(lim, kind, s)
      case More => More
      case Bad(f) => Bad(f)
      case Done(None, k) => Done(NilReply, k)
      case Done(Some(n), k) => Shift(k, Assemble(kind, ParseSeq(lim, n, s[k..])))
  }

  function Assemble(kind: Kind, p: Parse<seq<Reply>>): Parse<Reply> {
    match p
    case More => More
    case Bad(f) => Bad(f)
    case Done(vs, m) => Done(AggReply(kind, vs), m)
  }

  ghost function ParseReply(lim: Limits, s: seq<Byte>): (p: Parse<Reply>)
    ensures p.Done? ==> 0 < p.used <= |s|
    decreases |s|, 0
  {
    if s == [] then More
    else if KindOf(s[0]).None? then Bad(BadTypeByte(s[0]))
    else Shift(1, ParseTyped(lim, KindOf(s[0]).value, s[1..]))
  }

  /** Exactly n replies in a row. */
  ghost function ParseSeq(lim: Limits, n: nat, s: seq<Byte>): (p: Parse<seq<Reply>>)
    ensures p.Done? ==> p.used <= |s| && |p.value| == n
    decreases |s|, 1
  {
    if n == 0 then Done([], 0)
    else
      match ParseReply(lim, s)
      case More => More
      case Bad(f) => Bad(f)
      case Done(v, k) => Shift(k, Prepend(v, ParseSeq(lim, n - 1, s[k..])))
  }

  function Prepend(v: Reply, p: Parse<seq<Reply>>): Parse<seq<Reply>> {
    if p.Done? then Done([v] + p.value, p.used) else p
  }

  /** Everything a stream yields: its replies in order, and how reading it ends. */
  datatype Ending = Waiting | Failed(fault: Fault)

  ghost function ParseAll(lim: Limits, s: seq<Byte>): (seq<Reply>, Ending)
    decreases |s|
  {
    match ParseReply(lim, s)
    case More => ([], Waiting)
    case Bad(f) => ([], Failed(f))
    case Done(v, k) =>
      var (vs, e) := ParseAll(lim, s[k..]);
      ([v] + vs, e)
  }

  // ---------------------------------------------------------------- extension stability

  lemma FirstCrlfExtends(w: seq<Byte>, t: seq<Byte>)
    requires FirstCrlf(w).Some?
    ensures FirstCrlf(w + t) == FirstCrlf(w)
  {
    var i := FirstCrlf(w).value;
    assert forall j :: j <= i ==> CrlfAt(w + t, j) == CrlfAt(w, j);
    CrlfUnique(w + t, i);
  }

  lemma HeaderExtends(lim: Limits, kind: Kind, w: seq<Byte>, t: seq<Byte>)
    requires !ParseHeader(lim, kind, w).More?
    ensures ParseHeader(lim, kind, w + t) == ParseHeader(lim, kind, w)
  {
    FirstCrlfExtends(w, t);
    assert (w + t)[..FirstCrlf(w).value] == w[..FirstCrlf(w).value];
  }

  lemma LeafExtends(lim: Limits, kind: Kind, w: seq<Byte>, t: seq<Byte>)
    requires !kind.IsAggregate() && !ParseTyped(lim, kind, w).More?
    ensures ParseTyped(lim, kind, w + t) == ParseTyped(lim, kind, w)
  {
    hide ParseInt, LineValue, BulkValue, FirstCrlf;
    FirstCrlfExtends(w, t);
    var i := FirstCrlf(w).value;
    assert (w + t)[..i] == w[..i];
    if kind.IsBulk() {
      var n := ParseInt(w[..i]);
      if n.Some? && n.value >= 0 && i + 2 + n.value + 2 <= |w| {
        assert (w + t)[i + 2..i + 2 + n.value] == w[i + 2..i + 2 + n.value];
      }
    }
  }

  ghost predicate ReplyStable(lim: Limits, w: seq<Byte>, t: seq<Byte>) {
    ParseReply(lim, w).More? || ParseReply(lim, w + t) == ParseReply(lim, w)
  }

  ghost predicate TypedStable(lim: Limits, kind: Kind, w: seq<Byte>, t: seq<Byte>) {
    ParseTyped(lim, kind, w).More? || ParseTyped(lim, kind, w + t) == ParseTyped(lim, kind, w)
  }

  ghost predicate SeqStable(lim: Limits, n: nat, w: seq<Byte>, t: seq<Byte>) {
    ParseSeq(lim, n, w).More? || ParseSeq(lim, n, w + t) == ParseSeq(lim, n, w)
  }

  /** A verdict on a prefix is the verdict on every longer input. */
  lemma {:induction false} ReplyExtends(lim: Limits, w: seq<Byte>, t: seq<Byte>)
    ensures ReplyStable(lim, w, t)
    decreases |w|, 0
  {
    if w != [] && KindOf(w[0]).Some? {
      assert (w + t)[1..] == w[1..] + t;
      TypedExtends(lim, KindOf(w[0]).value, w[1..], t);
    }
  }

  lemma {:induction false} TypedExtends(lim: Limits, kind: Kind, w: seq<Byte>, t: seq<Byte>)
    ensures TypedStable(lim, kind, w, t)
    decreases |w|, 2
  {
    if !kind.IsAggregate() {
      if !ParseTyped(lim, kind, w).More? {
        LeafExtends(lim, kind, w, t);
      }
    } else {
      var h := ParseHeader(lim, kind, w);
      if !h.More? {
        HeaderExtends(lim, kind, w, t);
      }
      if h.Done? && h.value.Some? {
        assert (w + t)[h.used..] == w[h.used..] + t;
        SeqExtends(lim, h.value.value, w[h.used..], t);
      }
    }
  }

  lemma SeqUnfolds(lim: Limits, n: nat, s: seq<Byte>)
    requires n > 0
    ensures ParseSeq(lim, n, s) == match ParseReply(lim, s)
                                   case More => More
                                   case Bad(f) => Bad(f)
                                   case Done(v, k) => Shift(k, Prepend(v, ParseSeq(lim, n - 1, s[k..])))
  {
  }

  lemma {:induction false} SeqExtends(lim: Limits, n: nat, w: seq<Byte>, t: seq<Byte>)
    ensures SeqStable(lim, n, w, t)
    decreases |w|, 1
  {
    if n > 0 {
      var r := ParseReply(lim, w);
      ReplyExtends(lim, w, t);
      if r.Done? {
        var p, q := ParseSeq(lim, n - 1, w[r.used..]), ParseSeq(lim, n - 1, (w + t)[r.used..]);
        assert p.More? || q == p by {
          assert (w + t)[r.used..] == w[r.used..] + t;
          SeqExtends(lim, n - 1, w[r.used..], t);
        }
        assert ParseSeq(lim, n, w) == Shift(r.used, Prepend(r.value, p)) by { SeqUnfolds(lim, n, w); }
        assert ParseSeq(lim, n, w + t) == Shift(r.used, Prepend(r.value, q)) by { SeqUnfolds(lim, n, w + t); }
      } else {
        SeqUnfolds(lim, n, w);
        SeqUnfolds(lim, n, w + t);
      }
    }
  }
}
