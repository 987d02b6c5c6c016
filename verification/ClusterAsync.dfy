/**
 * The asynchronous cluster client: request records travel through the callback
 * queues of the node connections until their user callback runs, once.
 */
module ClusterAsync {
  import opened Bytes
  import opened EventRuns
  import opened ClusterReplies

  type Id = nat
  type Conn = nat

  /** A callback in a connection's queue: that of a request, or one the client registers for itself. */
  datatype Entry = Request(id: Id) | Other

  const NO_RETRY := -1

  /** cluster_async_data: the record of a request. */
  datatype Record = Record(retryCount: int, privdata: nat) | Freed

  datatype Delivery = Delivery(id: Id, privdata: nat, reply: Option<Reply>)

  /** A throttled slot map update: not due, sent on a connection, or failed with or without setting an error. */
  datatype Refresh = NotDue | Sent(c: Conn) | Failed(e: Option<nat>)

  /** What the environment decides while a callback runs. */
  datatype Choices = Choices(
    acErr: nat, nodeKnown: bool, refresh: Refresh, redirect: Result<(), nat>, contact: Result<Conn, nat>, otherErr: Option<nat>)

  /** What can happen to a client, in any order. */
  datatype Event =
    | Submits(n: Conn, acErr: nat, retries: bool, privdata: nat) | Refused(e: nat, refresh: Refresh)
    | Fires(c: Conn, r: Option<Reply>, w: Choices) | CallbackReturns
    | Closes(c: Conn) | Disconnects

  /** How often a request stands in a queue. */
  ghost function Count(q: seq<Entry>, id: Id): nat {
    if q == [] then 0 else (if q[0] == Request(id) then 1 else 0) + Count(q[1..], id)
  }

  /** How often a request stands in all queues. */
  ghost function Queued(queues: seq<seq<Entry>>, id: Id): nat {
    if queues == [] then 0 else Count(queues[0], id) + Queued(queues[1..], id)
  }

  lemma {:induction false} CountPush(q: seq<Entry>, e: Entry, id: Id)
    ensures Count(q + [e], id) == Count(q, id) + if e == Request(id) then 1 else 0
  {
    if q == [] {
      assert (q + [e])[1..] == [];
    } else {
      CountPush(q[1..], e, id);
      assert (q + [e])[1..] == q[1..] + [e];
    }
  }

  lemma {:induction false} QueuedUpdate(queues: seq<seq<Entry>>, c: Conn, q: seq<Entry>, id: Id)
    requires c < |queues|
    ensures Queued(queues[c := q], id) + Count(queues[c], id) == Queued(queues, id) + Count(q, id)
  {
    if c > 0 {
      QueuedUpdate(queues[1..], c - 1, q, id);
      assert queues[c := q][1..] == queues[1..][c - 1 := q];
    } else {
      assert queues[c := q][1..] == queues[1..];
    }
  }

  lemma {:induction false} QueuedNew(queues: seq<seq<Entry>>, id: Id)
    ensures Queued(queues + [[]], id) == Queued(queues, id)
  {
    if queues == [] {
      assert (queues + [[]])[1..] == [];
    } else {
      QueuedNew(queues[1..], id);
      assert (queues + [[]])[1..] == queues[1..] + [[]];
    }
  }

  lemma QueuedPush(queues: seq<seq<Entry>>, c: Conn, e: Entry)
    requires c < |queues|
    ensures forall id: Id :: Queued(queues[c := queues[c] + [e]], id) == Queued(queues, id) + if e == Request(id) then 1 else 0
  {
    forall id: Id
      ensures Queued(queues[c := queues[c] + [e]], id) == Queued(queues, id) + if e == Request(id) then 1 else 0
    {
      QueuedUpdate(queues, c, queues[c] + [e], id);
      CountPush(queues[c], e, id);
    }
  }

  lemma QueuedPop(queues: seq<seq<Entry>>, c: Conn)
    requires c < |queues| && queues[c] != []
    ensures forall id: Id ::
      Queued(queues, id) == Queued(queues[c := queues[c][1..]], id) + if queues[c][0] == Request(id) then 1 else 0
  {
    forall id: Id
      ensures Queued(queues, id) == Queued(queues[c := queues[c][1..]], id) + if queues[c][0] == Request(id) then 1 else 0
    {
      QueuedUpdate(queues, c, queues[c][1..], id);
    }
  }

  /** How often the user callback of a request was run. */
  ghost function Runs(delivered: seq<Delivery>, id: Id): nat {
    if delivered == [] then 0
    else Runs(delivered[..|delivered| - 1], id) + if delivered[|delivered| - 1].id == id then 1 else 0
  }

  lemma RunsNext(delivered: seq<Delivery>, d: Delivery)
    ensures forall id: Id :: Runs(delivered + [d], id) == Runs(delivered, id) + if d.id == id then 1 else 0
  {
    assert (delivered + [d])[..|delivered|] == delivered;
  }

  /**
   * A request is in at most one place, and an accepted one in exactly one:
   * one queue entry, the hands of the function that is about to requeue or
   * deliver it, or one delivery.
   */
  ghost predicate Placed(accepted: map<Id, nat>, queues: seq<seq<Entry>>, held: Option<Id>, delivered: seq<Delivery>) {
    forall id: Id ::
      Queued(queues, id) + (if held == Some(id) then 1 else 0) + Runs(delivered, id) == if id in accepted then 1 else 0
  }

  /** The record of a queued request: it was sent once more than it was retried. */
  ghost predicate Waiting(records: seq<Record>, sent: seq<nat>, max: nat, id: Id) {
    && id < |records| && |sent| == |records| && records[id].Record?
    && (records[id].retryCount == NO_RETRY || 0 <= records[id].retryCount <= max)
    && sent[id] == if records[id].retryCount == NO_RETRY then 1 else records[id].retryCount + 1
  }

  /** The requests whose record must be live: queued, held, or with their user callback running. */
  ghost predicate InUse(queues: seq<seq<Entry>>, held: Option<Id>, hands: seq<Id>, id: Id) {
    Queued(queues, id) > 0 || held == Some(id) || id in hands
  }

  /** Live records are exactly those in use: none is leaked, and none is used after it was freed. */
  ghost predicate Owned(records: seq<Record>, queues: seq<seq<Entry>>, held: Option<Id>, hands: seq<Id>) {
    && (forall id: Id :: InUse(queues, held, hands, id) ==> id < |records|)
    && (forall id: Id :: id < |records| ==> (records[id].Record? <==> InUse(queues, held, hands, id)))
    && (forall i, j :: 0 <= i < j < |hands| ==> hands[i] != hands[j])
  }

  predicate EndsWith(q: seq<Entry>, end: seq<Entry>) {
    |q| >= |end| && q[|q| - |end|..] == end
  }

  /** The books of a client: where its requests are, and what was done with them. */
  datatype Books = Books(accepted: map<Id, nat>, sent: seq<nat>, delivered: seq<Delivery>, hands: seq<Id>)

  ghost predicate Inv(b: Books, records: seq<Record>, queues: seq<seq<Entry>>, held: Option<Id>, max: nat) {
    && |b.sent| == |records| && (forall id :: 0 <= id < |b.sent| ==> b.sent[id] <= max + 1)
    && Placed(b.accepted, queues, held, b.delivered)
    && Owned(records, queues, held, b.hands)
    && (forall id: Id :: Queued(queues, id) > 0 ==> Waiting(records, b.sent, max, id))
    && (forall id :: id in b.accepted ==> id < |records|)
    && (forall i :: 0 <= i < |b.hands| ==> Runs(b.delivered, b.hands[i]) > 0)
    && (forall id: Id :: id < |records| && records[id].Record? ==> id in b.accepted && records[id].privdata == b.accepted[id])
    && (forall i :: 0 <= i < |b.delivered| ==>
      b.delivered[i].id in b.accepted && b.delivered[i].privdata == b.accepted[b.delivered[i].id])
  }

  lemma InvNew(b: Books, records: seq<Record>, queues: seq<seq<Entry>>, held: Option<Id>, max: nat)
    requires Inv(b, records, queues, held, max)
    ensures Inv(b, records, queues + [[]], held, max)
  {
    forall id: Id ensures Queued(queues + [[]], id) == Queued(queues, id) {
      QueuedNew(queues, id);
    }
    InvSame(b, records, queues, queues + [[]], held, max);
  }

  lemma InvSame(b: Books, records: seq<Record>, queues: seq<seq<Entry>>, others: seq<seq<Entry>>, held: Option<Id>, max: nat)
    requires Inv(b, records, queues, held, max) && forall id: Id :: Queued(queues, id) == Queued(others, id)
    ensures Inv(b, records, others, held, max)
  {
    hide Queued, Runs, Waiting;
    assert forall id: Id :: InUse(queues, held, b.hands, id) <==> InUse(others, held, b.hands, id);
  }

  lemma InvOther(b: Books, records: seq<Record>, queues: seq<seq<Entry>>, held: Option<Id>, max: nat, c: Conn)
    requires Inv(b, records, queues, held, max) && c < |queues|
    ensures Inv(b, records, queues[c := queues[c] + [Other]], held, max)
  {
    hide Inv, Queued;
    QueuedPush(queues, c, Other);
    InvSame(b, records, queues, queues[c := queues[c] + [Other]], held, max);
  }

  /** The first entry of a queue is taken out; a request is then held. */
  lemma InvPop(b: Books, records: seq<Record>, queues: seq<seq<Entry>>, max: nat, c: Conn)
    requires Inv(b, records, queues, None, max) && c < |queues| && queues[c] != []
    ensures var e := queues[c][0];
      && Inv(b, records, queues[c := queues[c][1..]], if e.Request? then Some(e.id) else None, max)
      && (e.Request? ==> Waiting(records, b.sent, max, e.id) && e.id in b.accepted && Runs(b.delivered, e.id) == 0)
  {
    var e, others := queues[c][0], queues[c := queues[c][1..]];
    var held := if e.Request? then Some(e.id) else None;
    QueuedPop(queues, c);
    hide Queued, Runs, Waiting;
    assert forall id: Id :: InUse(queues, None, b.hands, id) <==> InUse(others, held, b.hands, id);
  }

  /** The retry counter of a held request may change. */
  lemma InvRetry(b: Books, records: seq<Record>, queues: seq<seq<Entry>>, id: Id, max: nat, retry: int)
    requires Inv(b, records, queues, Some(id), max) && id < |records| && records[id].Record?
    ensures Inv(b, records[id := records[id].(retryCount := retry)], queues, Some(id), max)
  {
    hide Queued, Runs;
    var after := records[id := records[id].(retryCount := retry)];
    forall i: Id | Queued(queues, i) > 0
      ensures Waiting(after, b.sent, max, i)
    {
      assert i != id && Waiting(records, b.sent, max, i);
    }
  }

  /** A held request is queued again, one transmission later. */
  lemma InvRequeue(b: Books, records: seq<Record>, queues: seq<seq<Entry>>, id: Id, max: nat, c: Conn, record: Record)
    requires Inv(b, records, queues, Some(id), max) && c < |queues|
    requires id < |records| && record.Record? && 0 <= record.retryCount <= max && b.sent[id] == record.retryCount
    requires records[id] == record
    ensures var sent := b.sent[id := b.sent[id] + 1];
      Inv(b.(sent := sent), records, queues[c := queues[c] + [Request(id)]], None, max)
  {
    var others, sent, after := queues[c := queues[c] + [Request(id)]], b.sent[id := b.sent[id] + 1], records;
    QueuedPush(queues, c, Request(id));
    hide Queued, Runs;
    assert forall i: Id :: InUse(queues, Some(id), b.hands, i) <==> InUse(others, None, b.hands, i);
    forall i: Id | Queued(others, i) > 0
      ensures Waiting(after, sent, max, i)
    {
      assert i != id ==> Waiting(records, b.sent, max, i);
    }
  }

  lemma OwnData(b: Books, records: seq<Record>, queues: seq<seq<Entry>>, max: nat, id: Id)
    requires Inv(b, records, queues, Some(id), max) && id < |records| && records[id].Record?
    ensures id in b.accepted && records[id].privdata == b.accepted[id]
  {
  }

  /** A held request is delivered: its user callback starts. */
  lemma InvDeliver(b: Books, records: seq<Record>, queues: seq<seq<Entry>>, max: nat, d: Delivery)
    requires Inv(b, records, queues, Some(d.id), max)
    requires d.id < |records| && records[d.id].Record? && d.privdata == records[d.id].privdata
    ensures Inv(b.(delivered := b.delivered + [d], hands := b.hands + [d.id]), records, queues, None, max)
  {
    var hands := b.hands + [d.id];
    RunsNext(b.delivered, d);
    hide Queued, Runs, Waiting;
    assert d.id !in b.hands;
    assert forall i: Id :: InUse(queues, Some(d.id), b.hands, i) <==> InUse(queues, None, hands, i);
  }

  /** The innermost user callback has returned and its record is freed. */
  lemma InvReturn(b: Books, records: seq<Record>, queues: seq<seq<Entry>>, max: nat)
    requires Inv(b, records, queues, None, max) && b.hands != []
    ensures var n := |b.hands| - 1;
      && b.hands[n] < |records| && records[b.hands[n]].Record?
      && Inv(b.(hands := b.hands[..n]), records[b.hands[n] := Freed], queues, None, max)
  {
    hide Queued, Runs;
    var n := |b.hands| - 1;
    var id, hands := b.hands[n], b.hands[..n];
    assert InUse(queues, None, b.hands, id) && id !in hands && Queued(queues, id) == 0;
    var after := records[id := Freed];
    forall i: Id
      ensures i != id ==> (InUse(queues, None, b.hands, i) <==> InUse(queues, None, hands, i))
      ensures Queued(queues, i) > 0 ==> Waiting(after, b.sent, max, i)
    {
      assert Queued(queues, i) > 0 ==> Waiting(records, b.sent, max, i);
    }
  }

  /** A new request is accepted. */
  lemma InvAccept(b: Books, records: seq<Record>, queues: seq<seq<Entry>>, max: nat, c: Conn, record: Record)
    requires Inv(b, records, queues, None, max) && c < |queues| && record.Record? && record.retryCount in {0, NO_RETRY}
    ensures var id := |records|;
      Inv(b.(accepted := b.accepted[id := record.privdata], sent := b.sent + [1]), records + [record], queues[c := queues[c] + [Request(id)]], None, max)
  {
    var id, others := |records|, queues[c := queues[c] + [Request(|records|)]];
    var sent, after := b.sent + [1], records + [record];
    QueuedPush(queues, c, Request(id));
    hide Queued, Runs;
    assert !InUse(queues, None, b.hands, id);
    forall i: Id
      ensures i != id ==> (InUse(queues, None, b.hands, i) <==> InUse(others, None, b.hands, i))
      ensures Queued(others, i) > 0 ==> Waiting(after, sent, max, i)
    {
      assert Queued(queues, i) > 0 ==> Waiting(records, b.sent, max, i);
    }
  }

  /** A record made for a refused request is freed at once. */
  lemma InvRefuse(b: Books, records: seq<Record>, queues: seq<seq<Entry>>, max: nat)
    requires Inv(b, records, queues, None, max)
    ensures Inv(b.(sent := b.sent + [0]), records + [Freed], queues, None, max)
  {
    hide Queued, Runs;
    var sent, after := b.sent + [0], records + [Freed];
    assert !InUse(queues, None, b.hands, |records|);
    forall i: Id | Queued(queues, i) > 0
      ensures Waiting(after, sent, max, i)
    {
      assert Waiting(records, b.sent, max, i);
    }
  }

  /** A client at one moment. */
  datatype View = View(err: nat, disconnecting: bool, queues: seq<seq<Entry>>, closing: set<Conn>, records: seq<Record>, books: Books)
  {
    /** An event that can happen now. */
    predicate Possible(e: Event) {
      match e
      case Submits(_, _, _, _) => !disconnecting
      case Fires(c, _, _) => c < |queues| && queues[c] != []
      case CallbackReturns => books.hands != []
      case _ => true
    }

    /** The request may be retried on the reply: it is a cluster error, and retries are left. */
    predicate MayRetry(id: Id, r: Option<Reply>, max: nat) {
      && id < |records| && records[id].Record? && 0 <= records[id].retryCount < max
      && r.Some? && Retryable(r.value) && !disconnecting
    }

    /** The connection that a new request goes to. */
    function Submitted(n: Conn): Conn {
      if n < |queues| then n else |queues|
    }

    /** The requests accepted with an event, each with its private data. */
    function Accepts(e: Event): map<Id, nat> {
      if e.Submits? && Possible(e) && Submitted(e.n) !in closing then map[|records| := e.privdata] else map[]
    }

    /** A request redirected by an error `t` on connection `c` can be sent again: its connection is known and open. */
    predicate CanSend(c: Conn, t: ErrorType, w: Choices) {
      if t.MovedError? || t.AskError?
      then w.redirect.Ok? && w.contact.Ok? && w.contact.value < |queues| && w.contact.value !in closing
      else c !in closing
    }
  }

  /**
   * The connection `n` for a request redirected by an error `t` on
   * connection `c`: the same one, or that of the redirect's node.
   */
  predicate Target(queues: seq<seq<Entry>>, n: Conn, c: Conn, t: ErrorType, w: Choices) {
    && n < |queues|
    && (if t.MovedError? || t.AskError?
        then w.redirect.Ok? && w.contact.Ok? && n == (if w.contact.value < |queues| then w.contact.value else |queues| - 1)
        else n == c)
  }

  /** Request `id` was transmitted again, where the error `t` asks for it, after ASKING if need be, and nothing was delivered. */
  ghost predicate Requeued(was: Books, now: Books, queues: seq<seq<Entry>>, id: Id, c: Conn, t: ErrorType, w: Choices) {
    && id < |was.sent| && now == was.(sent := was.sent[id := was.sent[id] + 1])
    && exists n: Conn ::
      && Target(queues, n, c, t, w)
      && EndsWith(queues[n], if t.AskError? then [Other, Request(id)] else [Request(id)])
  }

  /** Request `id` was delivered, its user callback running. */
  ghost predicate HandedOver(was: Books, now: Books, id: Id, privdata: nat, r: Option<Reply>) {
    now == was.(delivered := was.delivered + [Delivery(id, privdata, r)], hands := was.hands + [id])
  }

  /** The client's error after a throttled slot map update. */
  function RefreshError(err: nat, r: Refresh): nat {
    if r.Failed? && r.e.Some? then r.e.value else err
  }

  /** The client's error after an error `t` was followed: that of a redirect or of its connection, if they fail. */
  function FollowError(err: nat, t: ErrorType, w: Choices): nat {
    if !t.MovedError? && !t.AskError? then err
    else if w.redirect.Err? then w.redirect.error
    else if w.contact.Err? then w.contact.error
    else if t.MovedError? then RefreshError(err, w.refresh)
    else err
  }

  /** The client's error after the callback of a request with this retry count. */
  function ErrorAfter(s: View, count: int, r: Option<Reply>, w: Choices, max: nat): nat {
    if r.None? then if w.nodeKnown then RefreshError(w.acErr, w.refresh) else w.acErr
    else if count == NO_RETRY || s.disconnecting || !Retryable(r.value) then s.err
    else if count >= max then VALKEY_ERR_CLUSTER_TOO_MANY_RETRIES
    else FollowError(s.err, GetReplyErrorType(r.value), w)
  }

  /** The queues with nothing taken from them or put in between, and perhaps more connections. */
  predicate Grown(before: seq<seq<Entry>>, after: seq<seq<Entry>>) {
    |before| <= |after| && forall c :: 0 <= c < |before| ==> before[c] <= after[c]
  }

  lemma GrownOn(before: seq<seq<Entry>>, mid: seq<seq<Entry>>, after: seq<seq<Entry>>)
    requires Grown(before, mid) && Grown(mid, after)
    ensures Grown(before, after)
  {
  }

  lemma GrownBy(before: seq<seq<Entry>>, c: Conn, e: Entry)
    requires c < |before|
    ensures Grown(before, before) && Grown(before, before + [[]]) && Grown(before, before[c := before[c] + [e]])
  {
  }

  /** The queues when the oldest callback of a connection has been taken. */
  function Popped(queues: seq<seq<Entry>>, c: Conn): seq<seq<Entry>> {
    if c < |queues| && queues[c] != [] then queues[c := queues[c][1..]] else queues
  }

  /** What happens to a request whose callback runs: it is sent again, or delivered. */
  ghost predicate Handled(s: View, t: View, c: Conn, id: Id, privdata: nat, r: Option<Reply>, w: Choices, max: nat) {
    var requeued := r.Some? && Requeued(s.books, t.books, t.queues, id, c, GetReplyErrorType(r.value), w);
    && (requeued || HandedOver(s.books, t.books, id, privdata, if t.err == 0 then r else None))
    && (requeued ==> s.MayRetry(id, r, max))
    && (id < |s.records| && s.records[id].Record? ==> t.err == ErrorAfter(s, s.records[id].retryCount, r, w, max))
    && (s.MayRetry(id, r, max) && s.CanSend(c, GetReplyErrorType(r.value), w) ==> requeued)
    && (r.Some? && !Retryable(r.value) ==> HandedOver(s.books, t.books, id, privdata, if s.err == 0 then r else None))
  }

  /** Taking the callback out of its queue does not matter to what happens to the request. */
  lemma HandledPopped(s: View, popped: View, t: View, c: Conn, id: Id, privdata: nat, r: Option<Reply>, w: Choices, max: nat)
    requires popped == s.(queues := popped.queues) && |popped.queues| == |s.queues|
    requires Handled(popped, t, c, id, privdata, r, w, max)
    ensures Handled(s, t, c, id, privdata, r, w, max)
  {
    hide Requeued, HandedOver, Retryable;
  }

  /** What one possible event does to a client. */
  ghost predicate Transition(s: View, e: Event, t: View, max: nat) {
    && t.books.accepted == s.books.accepted + s.Accepts(e)
    && (t.closing == if e.Closes? then s.closing + {e.c} else s.closing)
    && t.disconnecting == (s.disconnecting || e.Disconnects?)
    && Grown(if e.Fires? then Popped(s.queues, e.c) else s.queues, t.queues)
    && match e
       case Submits(n, acErr, retries, privdata) =>
         && t.books.delivered == s.books.delivered && t.books.hands == s.books.hands
         && if s.Submitted(n) !in s.closing
            then t.err == 0 && t.records == s.records + [Record(if retries then 0 else NO_RETRY, privdata)]
                 && s.Submitted(n) < |t.queues| && EndsWith(t.queues[s.Submitted(n)], [Request(|s.records|)])
            else t.err == acErr && t.records == s.records + [Freed]
       case Refused(code, _) => t.books == s.books && t.records == s.records && t.err == code
       case Fires(c, r, w) =>
         && c < |s.queues| && s.queues[c] != []
         && (s.queues[c][0].Other? ==>
           t.books == s.books && t.records == s.records && t.err == if w.otherErr.Some? then w.otherErr.value else s.err)
         && (s.queues[c][0].Request? ==>
           var id := s.queues[c][0].id;
           id in s.books.accepted && Handled(s, t, c, id, s.books.accepted[id], r, w, max))
       case CallbackReturns =>
         && s.books.hands != [] && t.err == 0 && t.queues == s.queues
         && t.books == s.books.(hands := s.books.hands[..|s.books.hands| - 1])
         && s.books.hands[|s.books.hands| - 1] < |s.records|
         && t.records == s.records[s.books.hands[|s.books.hands| - 1] := Freed]
       case Closes(_) => t.books == s.books && t.records == s.records && t.queues == s.queues && t.err == s.err
       case Disconnects => t.books == s.books && t.records == s.records && t.queues == s.queues && t.err == s.err
  }

  class ClusterAsyncContext {
    const maxRetryCount: nat
    var err: nat
    var disconnecting: bool
    var queues: seq<seq<Entry>>
    var closing: set<Conn>
    var records: seq<Record>
    var books: Books

    ghost predicate Valid()
      reads this
    {
      Inv(books, records, queues, None, maxRetryCount)
    }

    function Now(): View
      reads this
    {
      View(err, disconnecting, queues, closing, records, books)
    }

    constructor (maxRetry: nat)
      ensures Valid() && maxRetryCount == maxRetry
      ensures Now() == View(0, false, [], {}, [], Books(map[], [], [], []))
    {
      maxRetryCount := maxRetry;
      err, disconnecting, queues, closing, records := 0, false, [], {}, [];
      books := Books(map[], [], [], []);
    }

    /** A connection: a known one, or a new one with an empty queue. */
    method Connect(n: Conn, ghost held: Option<Id>) returns (c: Conn)
      requires Inv(books, records, queues, held, maxRetryCount)
      modifies this`queues
      ensures Inv(books, records, queues, held, maxRetryCount) && c < |queues|
      ensures if n < |old(queues)| then c == n && queues == old(queues) else c == |old(queues)| && queues == old(queues) + [[]]
      ensures Grown(old(queues), queues)
    {
      hide Inv;
      c := n;
      if n >= |queues| {
        c := |queues|;
        InvNew(books, records, queues, held, maxRetryCount);
        queues := queues + [[]];
      }
    }

    /** A command of the client itself: its callback is queued unless the connection is closing. */
    method CommandOther(c: Conn, ghost held: Option<Id>) returns (ok: bool)
      requires Inv(books, records, queues, held, maxRetryCount) && c < |queues|
      modifies this`queues
      ensures Inv(books, records, queues, held, maxRetryCount) && ok == (c !in closing)
      ensures queues == if ok then old(queues)[c := old(queues)[c] + [Other]] else old(queues)
      ensures Grown(old(queues), queues)
    {
      hide Inv, Grown;
      GrownBy(queues, c, Other);
      ok := c !in closing;
      if ok {
        InvOther(books, records, queues, held, maxRetryCount, c);
        queues := queues[c := queues[c] + [Other]];
      }
    }

    /** throttledUpdateSlotMapAsync. */
    method UpdateSlotmap(r: Refresh, ghost held: Option<Id>)
      requires Inv(books, records, queues, held, maxRetryCount)
      modifies this`queues, this`err
      ensures Inv(books, records, queues, held, maxRetryCount) && |queues| >= |old(queues)|
      ensures !r.Sent? ==> queues == old(queues)
      ensures err == RefreshError(old(err), r) && Grown(old(queues), queues)
    {
      hide Inv;
      match r
      case NotDue =>
      case Sent(n) =>
        var c := Connect(n, held);
        ghost var mid := queues;
        var ok := CommandOther(c, held);
        GrownOn(old(queues), mid, queues);
      case Failed(e) =>
        if e.Some? {
          err := e.value;
        }
    }

    /** valkeyClusterAsyncFormattedCommand once a connection is chosen, and its ToNode form, which never retries. */
    method Submit(n: Conn, acErr: nat, retries: bool, privdata: nat) returns (ok: bool)
      requires Valid() && !disconnecting
      modifies this
      ensures Valid() && disconnecting == old(disconnecting) && closing == old(closing)
      ensures books.delivered == old(books.delivered) && books.hands == old(books.hands)
      ensures books.accepted == if ok then old(books.accepted)[|old(records)| := privdata] else old(books.accepted)
      ensures ok ==> err == 0 && records == old(records) + [Record(if retries then 0 else NO_RETRY, privdata)]
      ensures !ok ==> err == acErr && records == old(records) + [Freed]
      ensures ok == (old(Now()).Submitted(n) !in closing)
      ensures books.sent == old(books.sent) + [if ok then 1 else 0]
      ensures n < |old(queues)| && ok ==> queues == old(queues)[n := old(queues)[n] + [Request(|old(records)|)]]
      ensures n >= |old(queues)| && ok ==> queues == old(queues) + [[Request(|old(records)|)]]
      ensures Grown(old(queues), queues)
    {
      hide Inv;
      err := 0;
      var c := Connect(n, None);
      ok := c !in closing;
      if ok {
        var record := Record(if retries then 0 else NO_RETRY, privdata);
        InvAccept(books, records, queues, maxRetryCount, c, record);
        assert n >= |old(queues)| ==> queues[c] == [];
        queues := queues[c := queues[c] + [Request(|records|)]];
        assert [] + [Request(|records|)] == [Request(|records|)];
        assert n >= |old(queues)| ==> queues == old(queues) + [[Request(|records|)]];
        books := books.(accepted := books.accepted[|records| := privdata], sent := books.sent + [1]);
        records := records + [record];
      } else {
        InvRefuse(books, records, queues, maxRetryCount);
        err := acErr;
        books := books.(sent := books.sent + [0]);
        records := records + [Freed];
      }
    }

    /** A request refused before a connection is chosen: no slot, no key, or no connection. */
    method Refuse(e: nat, refresh: Refresh)
      requires Valid()
      modifies this`err, this`queues
      ensures Valid() && err == e && (!refresh.Sent? ==> queues == old(queues)) && Grown(old(queues), queues)
    {
      hide Inv;
      UpdateSlotmap(refresh, None);
      err := e;
    }

    /** The label `done`: the user callback starts, with NULL if an error is set. */
    method Deliver(id: Id, r: Option<Reply>)
      requires Inv(books, records, queues, Some(id), maxRetryCount) && id < |records| && records[id].Record?
      modifies this`books
      ensures Valid() && books.accepted == old(books.accepted) && books.sent == old(books.sent)
      ensures books.hands == old(books.hands) + [id]
      ensures books.delivered == old(books.delivered) + [Delivery(id, records[id].privdata, if err == 0 then r else None)]
    {
      hide Inv;
      var d := Delivery(id, records[id].privdata, if err == 0 then r else None);
      InvDeliver(books, records, queues, maxRetryCount, d);
      books := books.(delivered := books.delivered + [d], hands := books.hands + [id]);
    }

    /** Where a redirected or retried request goes: nowhere if the redirect, its connection or ASKING fails. */
    method Retarget(c: Conn, id: Id, t: ErrorType, w: Choices) returns (target: Option<Conn>)
      requires Inv(books, records, queues, Some(id), maxRetryCount) && c < |queues|
      modifies this`queues, this`err
      ensures Inv(books, records, queues, Some(id), maxRetryCount) && (target.Some? ==> Target(queues, target.value, c, t, w))
      ensures old(Now()).CanSend(c, t, w) ==> target.Some? && target.value !in closing
      ensures t.AskError? && target.Some? ==> EndsWith(queues[target.value], [Other])
      ensures err == FollowError(old(err), t, w) && Grown(old(queues), queues)
    {
      hide Inv, Grown;
      GrownBy(queues, c, Other);
      if !t.MovedError? && !t.AskError? {
        return Some(c);
      }
      if t.MovedError? {
        UpdateSlotmap(w.refresh, Some(id));
      }
      if w.redirect.Err? {
        err := w.redirect.error;
        return None;
      }
      if w.contact.Err? {
        err := w.contact.error;
        return None;
      }
      ghost var mid := queues;
      var n := Connect(w.contact.value, Some(id));
      GrownOn(old(queues), mid, queues);
      target := Some(n);
      if t.AskError? {
        mid := queues;
        var ok := CommandOther(n, Some(id));
        GrownOn(old(queues), mid, queues);
        if !ok {
          target := None;
        }
      }
    }

    /**
     * valkeyClusterAsyncCallback: a held request goes to the end of a queue
     * again or to the user. A final reply reaches the user if and only if no
     * error is set on the client when it arrives.
     */
    method Callback(c: Conn, id: Id, r: Option<Reply>, w: Choices)
      requires Inv(books, records, queues, Some(id), maxRetryCount) && c < |queues|
      requires Waiting(records, books.sent, maxRetryCount, id)
      modifies this
      ensures Valid() && disconnecting == old(disconnecting) && closing == old(closing)
      ensures books.accepted == old(books.accepted)
      ensures Handled(old(Now()), Now(), c, id, old(records)[id].privdata, r, w, maxRetryCount)
      ensures Grown(old(queues), queues)
    {
      hide Inv, Grown;
      GrownBy(queues, c, Other);
      if r.None? {
        err := w.acErr;
        if w.nodeKnown {
          UpdateSlotmap(w.refresh, Some(id));
        }
        Deliver(id, r);
        return;
      }
      if records[id].retryCount == NO_RETRY || disconnecting {
        Deliver(id, r);
        return;
      }
      if Retryable(r.value) {
        var retried := Retry(c, id, r.value, w);
        if retried {
          return;
        }
      }
      Deliver(id, r);
    }

    /** The retry of a request on a cluster error, while retries are left. */
    method Retry(c: Conn, id: Id, r: Reply, w: Choices) returns (retried: bool)
      requires Inv(books, records, queues, Some(id), maxRetryCount) && c < |queues| && Retryable(r)
      requires Waiting(records, books.sent, maxRetryCount, id) && records[id].retryCount != NO_RETRY
      modifies this
      ensures disconnecting == old(disconnecting) && closing == old(closing)
      ensures retried ==>
        Valid() && old(records)[id].retryCount < maxRetryCount && Requeued(old(books), books, queues, id, c, GetReplyErrorType(r), w)
      ensures old(Now()).CanSend(c, GetReplyErrorType(r), w) && old(records)[id].retryCount < maxRetryCount ==> retried
      ensures Grown(old(queues), queues)
      ensures err == if old(records)[id].retryCount >= maxRetryCount then VALKEY_ERR_CLUSTER_TOO_MANY_RETRIES
                     else FollowError(old(err), GetReplyErrorType(r), w)
      ensures !retried ==>
        && Inv(books, records, queues, Some(id), maxRetryCount) && books == old(books)
        && |records| == |old(records)| && records[id].Record? && records[id].privdata == old(records)[id].privdata
    {
      hide Inv, Grown, Retryable, GetReplyErrorType, FollowError;
      GrownBy(queues, c, Other);
      InvRetry(books, records, queues, id, maxRetryCount, records[id].retryCount + 1);
      records := records[id := records[id].(retryCount := records[id].retryCount + 1)];
      if records[id].retryCount > maxRetryCount {
        InvRetry(books, records, queues, id, maxRetryCount, 0);
        records := records[id := records[id].(retryCount := 0)];
        err := VALKEY_ERR_CLUSTER_TOO_MANY_RETRIES;
        return false;
      }
      var target := Retarget(c, id, GetReplyErrorType(r), w);
      retried := target.Some? && target.value !in closing;
      if retried {
        ghost var q, mid := queues[target.value], queues;
        Requeue(target.value, id);
        GrownBy(mid, target.value, Request(id));
        GrownOn(old(queues), mid, queues);
        assert queues[target.value] == q + [Request(id)];
      }
    }

    method Requeue(c: Conn, id: Id)
      requires Inv(books, records, queues, Some(id), maxRetryCount) && c < |queues|
      requires id < |records| && records[id].Record? && 0 <= records[id].retryCount <= maxRetryCount
      requires |books.sent| == |records| && books.sent[id] == records[id].retryCount
      modifies this`queues, this`books
      ensures Valid() && queues == old(queues[c := queues[c] + [Request(id)]])
      ensures books == old(books.(sent := books.sent[id := books.sent[id] + 1]))
    {
      hide Inv;
      InvRequeue(books, records, queues, id, maxRetryCount, c, records[id]);
      queues := queues[c := queues[c] + [Request(id)]];
      books := books.(sent := books.sent[id := books.sent[id] + 1]);
    }

    /** A connection runs the first callback of its queue: every reply, or NULL, goes to the oldest callback. */
    method Fire(c: Conn, r: Option<Reply>, w: Choices)
      requires Valid() && c < |queues| && queues[c] != []
      modifies this
      ensures Valid() && Transition(old(Now()), Fires(c, r, w), Now(), maxRetryCount)
    {
      hide Inv, Handled, Queued, Runs, Grown;
      var e := queues[c][0];
      GrownBy(Popped(queues, c), c, Other);
      InvPop(books, records, queues, maxRetryCount, c);
      queues := queues[c := queues[c][1..]];
      ghost var popped := Now();
      match e
      case Other =>
        if w.otherErr.Some? {
          err := w.otherErr.value;
        }
      case Request(id) =>
        OwnData(books, records, queues, maxRetryCount, id);
        ghost var privdata := records[id].privdata;
        Callback(c, id, r, w);
        HandledPopped(old(Now()), popped, Now(), c, id, privdata, r, w, maxRetryCount);
    }

    /** The innermost user callback returns: errors are cleared and its record is freed. */
    method Return()
      requires Valid() && books.hands != []
      modifies this
      ensures Valid() && err == 0 && books == old(books.(hands := books.hands[..|books.hands| - 1]))
      ensures disconnecting == old(disconnecting) && closing == old(closing) && queues == old(queues)
      ensures old(books.hands[|books.hands| - 1]) < |old(records)|
      ensures records == old(records[books.hands[|books.hands| - 1] := Freed])
    {
      InvReturn(books, records, queues, maxRetryCount);
      hide Inv;
      err := 0;
      var n := |books.hands| - 1;
      records := records[books.hands[n] := Freed];
      books := books.(hands := books.hands[..n]);
    }

    /** One event. */
    method Step(e: Event)
      requires Valid() && Now().Possible(e)
      modifies this
      ensures Valid() && Transition(old(Now()), e, Now(), maxRetryCount)
    {
      hide Inv, Handled, Queued, Runs;
      match e
      case Submits(n, acErr, retries, privdata) => var ok := Submit(n, acErr, retries, privdata);
      case Refused(code, refresh) => Refuse(code, refresh);
      case Fires(c, r, w) => Fire(c, r, w);
      case CallbackReturns => Return();
      case Closes(c) => closing := closing + {c};
      case Disconnects => disconnecting := true;
    }

    /** No request waits in a queue. */
    ghost predicate Drained()
      reads this
    {
      forall id: Id :: Queued(queues, id) == 0
    }
  }

  /** What every run keeps: at most one delivery, exactly one once the queues are drained, and bounded retries. */
  ghost predicate ExactlyOnce(c: ClusterAsyncContext)
    reads c
  {
    && (forall id: Id :: Runs(c.books.delivered, id) <= 1)
    && (forall id: Id :: Runs(c.books.delivered, id) == 1 ==> id in c.books.accepted)
    && (c.Drained() ==> forall id: Id :: id in c.books.accepted ==> Runs(c.books.delivered, id) == 1)
    && (c.Drained() && c.books.hands == [] ==> forall id :: 0 <= id < |c.records| ==> c.records[id].Freed?)
    && (forall id :: 0 <= id < |c.books.sent| ==> c.books.sent[id] <= c.maxRetryCount + 1)
  }

  lemma DeliveredOnce(c: ClusterAsyncContext)
    requires c.Valid()
    ensures ExactlyOnce(c)
  {
    hide Queued, Runs, Waiting;
    var b := c.books;
    forall id: Id
      ensures Queued(c.queues, id) + Runs(b.delivered, id) == if id in b.accepted then 1 else 0
      ensures c.Drained() && b.hands == [] ==> !InUse(c.queues, None, b.hands, id)
    {
      assert c.Drained() ==> Queued(c.queues, id) == 0;
    }
  }

  /** What an event does to a client; one that is not possible changes nothing. */
  ghost function Machine(max: nat): (View, Event, View) -> bool {
    (s: View, e: Event, t: View) => if s.Possible(e) then Transition(s, e, t, max) else t == s
  }

  /** A client without requests. */
  ghost const FIRST := View(0, false, [], {}, [], Books(map[], [], [], []))

  /** The requests accepted in the first n events of a run. */
  ghost function Accepted(events: seq<Event>, views: seq<View>, n: nat): map<Id, nat>
    requires n <= |events| && n <= |views|
  {
    if n == 0 then map[] else Accepted(events, views, n - 1) + views[n - 1].Accepts(events[n - 1])
  }

  /** In a run, the accepted requests are those of its events. */
  lemma {:induction false} FromEvents(events: seq<Event>, views: seq<View>, max: nat, n: nat)
    requires IsRun(Machine(max), FIRST, events, views) && n <= |events|
    ensures views[n].books.accepted == Accepted(events, views, n)
  {
    if n > 0 {
      FromEvents(events, views, max, n - 1);
      assert Machine(max)(views[n - 1], events[n - 1], views[n - 1 + 1]);
    }
  }

  /** Every run of a client, whatever its nodes and its user do. */
  method Run(maxRetry: nat, events: seq<Event>) returns (c: ClusterAsyncContext, ghost views: seq<View>)
    ensures fresh(c) && c.Valid() && ExactlyOnce(c) && c.maxRetryCount == maxRetry
    ensures IsRun(Machine(maxRetry), FIRST, events, views) && views[|events|] == c.Now()
    ensures c.books.accepted == Accepted(events, views, |events|)
  {
    hide Inv, ExactlyOnce, Transition, Accepted;
    c := new ClusterAsyncContext(maxRetry);
    views := [c.Now()];
    for i := 0 to |events|
      invariant fresh(c) && c.Valid() && c.maxRetryCount == maxRetry
      invariant IsRun(Machine(maxRetry), FIRST, events[..i], views) && views[i] == c.Now()
    {
      if c.Now().Possible(events[i]) {
        c.Step(events[i]);
      }
      RunOn(Machine(maxRetry), FIRST, events[..i], views, events[i], c.Now());
      assert events[..i + 1] == events[..i] + [events[i]];
      views := views + [c.Now()];
    }
    assert events[..|events|] == events;
    FromEvents(events, views, maxRetry, |events|);
    DeliveredOnce(c);
  }

  /**
   * A reply can be lost to a stale error: a request was accepted, another was
   * then refused, and the good reply to the first is delivered as NULL.
   */
  method StaleError(good: Reply) returns (c: ClusterAsyncContext)
    requires !good.isError
    ensures c.Valid() && c.books.delivered == [Delivery(0, 7, None)]
  {
    hide Inv;
    c := new ClusterAsyncContext(5);
    var ok := c.Submit(0, 0, true, 7);
    c.Refuse(VALKEY_ERR_OTHER, NotDue);
    c.Fire(0, Some(good), Choices(0, true, NotDue, Ok(()), Ok(0), None));
  }
}
