/** What a half-finished parse still means: the reader's task stack read as a continuation
    of the recursive grammar. */
module Continuation {
  import opened Bytes
  import opened Decimal
  import opened Resp

  /** An aggregate under construction: `done` are its finished elements, one more is open. */
  datatype Frame = Frame(kind: Kind, total: nat, done: seq<Reply>)

  /** The state of one reply's parse: not complete - enclosing aggregates outermost first and
      the kind of the current item once its type byte is read - or complete. */
  datatype State = Open(stack: seq<Frame>, cur: Option<Kind>) | Complete(v: Reply)

  ghost predicate Running(stack: seq<Frame>) {
    forall i :: 0 <= i < |stack| ==> stack[i].kind.IsAggregate() && |stack[i].done| < stack[i].total
  }

  /** Hand a finished element to the innermost aggregate; close every aggregate it completes. */
  function Next(stack: seq<Frame>, v: Reply): State {
    if stack == [] then Complete(v)
    else
      var init, top := stack[..|stack| - 1], stack[|stack| - 1];
      var done := top.done + [v];
      if |done| >= top.total then Next(init, AggReply(top.kind, done))
      else Open(init + [top.(done := done)], None)
  }

  lemma NextRunning(stack: seq<Frame>, v: Reply)
    requires Running(stack)
    ensures Next(stack, v).Open? ==> Running(Next(stack, v).stack) && Next(stack, v).cur == None
  {
  }

  /** Finish the enclosing aggregates after element v, reading their other elements from s. */
  ghost function Plug(lim: Limits, stack: seq<Frame>, v: Reply, s: seq<Byte>): Parse<Reply>
    decreases |stack|, 0
  {
    if stack == [] then Done(v, 0)
    else
      var init, top := stack[..|stack| - 1], stack[|stack| - 1];
      Close(lim, init, top.kind, top.done + [v],
            ParseSeq(lim, if top.total > |top.done| + 1 then top.total - |top.done| - 1 else 0, s), s)
  }

  /** Close an aggregate with elements `done` and then those of p, a parse of s. */
  ghost function Close(lim: Limits, init: seq<Frame>, kind: Kind, done: seq<Reply>, p: Parse<seq<Reply>>, s: seq<Byte>): Parse<Reply>
    requires p.Done? ==> p.used <= |s|
    decreases |init|, 1
  {
    match p
    case More => More
    case Bad(f) => Bad(f)
    case Done(vs, k) => Shift(k, Plug(lim, init, AggReply(kind, done + vs), s[k..]))
  }

  /** The verdict on the whole reply when the unread bytes are s. */
  ghost function Sem(lim: Limits, st: State, s: seq<Byte>): Parse<Reply> {
    match st
    case Complete(v) => Done(v, 0)
    case Open(stack, cur) => Continue(lim, stack, if cur.Some? then ParseTyped(lim, cur.value, s) else ParseReply(lim, s), s)
  }

  /** Continue after the current item, whose parse of s is p. */
  ghost function Continue(lim: Limits, stack: seq<Frame>, p: Parse<Reply>, s: seq<Byte>): Parse<Reply>
    requires p.Done? ==> p.used <= |s|
  {
    match p
    case More => More
    case Bad(f) => Bad(f)
    case Done(v, k) => Shift(k, Plug(lim, stack, v, s[k..]))
  }

  /** Reading an aggregate's missing elements at once, or one by one on the stack. */
  lemma OneByOne(lim: Limits, init: seq<Frame>, top: Frame, s: seq<Byte>)
    requires |top.done| < top.total
    ensures Close(lim, init, top.kind, top.done, ParseSeq(lim, top.total - |top.done|, s), s)
         == Sem(lim, Open(init + [top], None), s)
  {
    hide ParseReply, ParseSeq, ParseTyped;
    var n := top.total - |top.done|;
    var stack := init + [top];
    var r := ParseReply(lim, s);
    assert stack[..|stack| - 1] == init;
    if r.Done? {
      var rest := s[r.used..];
      var p := ParseSeq(lim, n - 1, rest);
      assert ParseSeq(lim, n, s) == Shift(r.used, Prepend(r.value, p)) by { SeqUnfolds(lim, n, s); }
      assert Sem(lim, Open(stack, None), s) == Shift(r.used, Close(lim, init, top.kind, top.done + [r.value], p, rest));
      if p.Done? {
        assert top.done + [r.value] + p.value == top.done + ([r.value] + p.value);
        assert rest[p.used..] == s[r.used + p.used..];
      }
    } else {
      SeqUnfolds(lim, n, s);
    }
  }

  /** Returning to the enclosing aggregates is what `Next` says. */
  lemma {:induction false} PlugIsNext(lim: Limits, stack: seq<Frame>, v: Reply, s: seq<Byte>)
    requires Running(stack)
    ensures Plug(lim, stack, v, s) == Sem(lim, Next(stack, v), s)
    decreases |stack|
  {
    if stack != [] {
      var init, top := stack[..|stack| - 1], stack[|stack| - 1];
      var done := top.done + [v];
      if |done| >= top.total {
        assert done + [] == done && s[0..] == s;
        PlugIsNext(lim, init, AggReply(top.kind, done), s);
      } else {
        OneByOne(lim, init, top.(done := done), s);
      }
    }
  }

  /** Bytes u have led from the start of a reply to state st: whatever follows, the grammar's
      verdict on u + t is the verdict of st on t. */
  ghost predicate Leads(lim: Limits, u: seq<Byte>, st: State, t: seq<Byte>) {
    ParseReply(lim, u + t) == Shift(|u|, Sem(lim, st, t))
  }

  ghost predicate Reaches(lim: Limits, u: seq<Byte>, st: State) {
    forall t :: Leads(lim, u, st, t)
  }

  /** One step from st to st', consuming w, preserves the verdict for every continuation t. */
  ghost predicate Step(lim: Limits, st: State, w: seq<Byte>, st': State) {
    forall t :: Steps(lim, st, w, st', t)
  }

  ghost predicate Steps(lim: Limits, st: State, w: seq<Byte>, st': State, t: seq<Byte>) {
    Sem(lim, st, w + t) == Shift(|w|, Sem(lim, st', t))
  }

  lemma LeadsOn(lim: Limits, u: seq<Byte>, st: State, w: seq<Byte>, st': State)
    requires Reaches(lim, u, st)
    requires Step(lim, st, w, st')
    ensures Reaches(lim, u + w, st')
  {
    forall t ensures Leads(lim, u + w, st', t) {
      assert Leads(lim, u, st, w + t) && Steps(lim, st, w, st', t);
      assert u + (w + t) == u + w + t;
    }
  }

  const START: State := Open([], None)

  lemma LeadsFromStart(lim: Limits)
    ensures Reaches(lim, [], START)
  {
    forall t ensures Leads(lim, [], START, t) {
      assert [] + t == t;
    }
  }

  lemma TypeByteStep(lim: Limits, stack: seq<Frame>, b: Byte)
    requires KindOf(b).Some?
    ensures Step(lim, Open(stack, None), [b], Open(stack, KindOf(b)))
  {
    forall t ensures Steps(lim, Open(stack, None), [b], Open(stack, KindOf(b)), t) {
      var s := [b] + t;
      assert s[1..] == t;
      var p := ParseTyped(lim, KindOf(b).value, t);
      assert ParseReply(lim, s) == Shift(1, p);
      if p.Done? {
        assert s[1 + p.used..] == t[p.used..];
      }
    }
  }

  /** An item that is incomplete or wrong makes the whole reply so. */
  lemma LeafVerdict(lim: Limits, st: State, s: seq<Byte>, p: Parse<Reply>)
    requires st.Open? && st.cur.Some? && p == ParseTyped(lim, st.cur.value, s)
    ensures !p.Done? ==> Sem(lim, st, s) == p
  {
  }

  lemma HeaderVerdict(lim: Limits, st: State, s: seq<Byte>, p: Parse<Option<nat>>)
    requires st.Open? && st.cur.Some? && st.cur.value.IsAggregate() && p == ParseHeader(lim, st.cur.value, s)
    ensures p.More? ==> Sem(lim, st, s) == More
    ensures p.Bad? ==> Sem(lim, st, s) == Bad(p.fault)
  {
  }

  lemma AtEnd(lim: Limits, st: State)
    requires st.Open?
    ensures Sem(lim, st, []) == More
  {
  }

  lemma LeafStep(lim: Limits, stack: seq<Frame>, kind: Kind, s: seq<Byte>, v: Reply, k: nat)
    requires !kind.IsAggregate() && ParseTyped(lim, kind, s) == Done(v, k) && Running(stack)
    ensures Step(lim, Open(stack, Some(kind)), s[..k], Next(stack, v))
  {
    forall t ensures Steps(lim, Open(stack, Some(kind)), s[..k], Next(stack, v), t) {
      LeafLocal(lim, kind, s, v, k);
      LeafExtends(lim, kind, s[..k], t);
      assert (s[..k] + t)[k..] == t;
      PlugIsNext(lim, stack, v, t);
    }
  }

  lemma {:induction false} CutCrlf(s: seq<Byte>, k: nat)
    requires FirstCrlf(s).Some? && FirstCrlf(s).value + 2 <= k <= |s|
    ensures FirstCrlf(s[..k]) == FirstCrlf(s)
  {
    var i := FirstCrlf(s).value;
    assert forall j :: j <= i ==> CrlfAt(s[..k], j) == CrlfAt(s, j);
    CrlfUnique(s[..k], i);
  }

  /** A leaf's parse looks at no byte beyond those it consumes. */
  lemma LeafLocal(lim: Limits, kind: Kind, s: seq<Byte>, v: Reply, k: nat)
    requires !kind.IsAggregate() && ParseTyped(lim, kind, s) == Done(v, k)
    ensures ParseTyped(lim, kind, s[..k]) == Done(v, k)
  {
    if kind.IsBulk() {
      BulkLocal(kind, s);
    } else {
      var i := FirstCrlf(s).value;
      CutCrlf(s, k);
      assert s[..k][..i] == s[..i];
    }
  }

  lemma BulkLocal(kind: Kind, s: seq<Byte>)
    requires ParseBulk(kind, s).Done?
    ensures ParseBulk(kind, s[..ParseBulk(kind, s).used]) == ParseBulk(kind, s)
  {
    var k := ParseBulk(kind, s).used;
    var i := FirstCrlf(s).value;
    CutCrlf(s, k);
    assert s[..k][..i] == s[..i];
    var n := ParseInt(s[..i]).value;
    if n >= 0 {
      assert s[..k][i + 2..i + 2 + n] == s[i + 2..i + 2 + n];
    }
  }

  lemma HeaderLocal(lim: Limits, kind: Kind, s: seq<Byte>)
    requires ParseHeader(lim, kind, s).Done?
    ensures ParseHeader(lim, kind, s[..ParseHeader(lim, kind, s).used]) == ParseHeader(lim, kind, s)
  {
    var k := ParseHeader(lim, kind, s).used;
    var i := FirstCrlf(s).value;
    CutCrlf(s, k);
    assert s[..k][..i] == s[..i];
  }

  /** An announced aggregate with elements opens a frame; an empty or nil one is finished. */
  function Announce(stack: seq<Frame>, kind: Kind, n: Option<nat>): State {
    match n
    case None => Next(stack, NilReply)
    case Some(m) => if m == 0 then Next(stack, AggReply(kind, [])) else Open(stack + [Frame(kind, m, [])], None)
  }

  lemma {:induction false} HeaderStep(lim: Limits, stack: seq<Frame>, kind: Kind, s: seq<Byte>, n: Option<nat>, k: nat)
    requires kind.IsAggregate() && ParseHeader(lim, kind, s) == Done(n, k) && Running(stack)
    ensures Step(lim, Open(stack, Some(kind)), s[..k], Announce(stack, kind, n))
  {
    forall t ensures Steps(lim, Open(stack, Some(kind)), s[..k], Announce(stack, kind, n), t) {
      var w := s[..k] + t;
      assert ParseHeader(lim, kind, w) == Done(n, k) by {
        HeaderLocal(lim, kind, s);
        HeaderExtends(lim, kind, s[..k], t);
      }
      assert w[k..] == t;
      if n.None? {
        PlugIsNext(lim, stack, NilReply, t);
      } else {
        AnnouncedStep(lim, stack, kind, w, n.value, k, t);
      }
    }
  }

  lemma OpenedStep(lim: Limits, stack: seq<Frame>, kind: Kind, m: nat, t: seq<Byte>)
    requires m > 0
    ensures Close(lim, stack, kind, [], ParseSeq(lim, m, t), t) == Sem(lim, Open(stack + [Frame(kind, m, [])], None), t)
  {
    hide Close, Sem, ParseSeq;
    var f := Frame(kind, m, []);
    OneByOne(lim, stack, f, t);
    assert f.total - |f.done| == m;
  }

  lemma AnnouncedStep(lim: Limits, stack: seq<Frame>, kind: Kind, w: seq<Byte>, m: nat, k: nat, t: seq<Byte>)
    requires kind.IsAggregate() && ParseHeader(lim, kind, w) == Done(Some(m), k) && Running(stack)
    requires w[k..] == t
    ensures Sem(lim, Open(stack, Some(kind)), w) == Shift(k, Sem(lim, Announce(stack, kind, Some(m)), t))
  {
    var p := ParseSeq(lim, m, t);
    assert ParseTyped(lim, kind, w) == Shift(k, Assemble(kind, p));
    var c := Close(lim, stack, kind, [], p, t);
    assert Sem(lim, Open(stack, Some(kind)), w) == Shift(k, c) by {
      if p.Done? {
        assert w[k + p.used..] == t[p.used..];
        assert [] + p.value == p.value;
      }
    }
    if m == 0 {
      assert t[0..] == t;
      assert [] + p.value == p.value;
      PlugIsNext(lim, stack, AggReply(kind, []), t);
    } else {
      OpenedStep(lim, stack, kind, m, t);
    }
  }
}
