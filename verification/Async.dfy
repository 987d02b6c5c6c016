/**
 * The asynchronous context for regular commands: the callback queue, the
 * flags, and user callbacks that call back into the context.
 */
module Async {
  import opened Bytes
  import opened EventRuns

  /** The callback registered with a command; a null function is allowed. */
  datatype Callback = Callback(privdata: nat, hasFn: bool)

  datatype Cell = Cell(cb: Callback, next: int) | Released

  const NULL := -1

  const INACTIVE := -1

  const VALKEY_ERR_OTHER := 2
  const VALKEY_ERR_TIMEOUT := 6

  /** The cell after the ith of a list. */
  ghost function After(ids: seq<nat>, i: nat): int {
    if i + 1 < |ids| then ids[i + 1] else NULL
  }

  /** The ith cell of a list is in use and links to the next. */
  ghost predicate LinkAt(cells: seq<Cell>, ids: seq<nat>, i: nat) {
    i < |ids| && ids[i] < |cells| && cells[ids[i]].Cell? && cells[ids[i]].next == After(ids, i)
  }

  ghost predicate Apart(ids: seq<nat>) {
    forall i, j :: 0 <= i < j < |ids| ==> ids[i] != ids[j]
  }

  /** Cells `ids` form the linked list from `head` to `tail`. */
  ghost predicate Listed(cells: seq<Cell>, head: int, tail: int, ids: seq<nat>) {
    && (forall i: nat :: i < |ids| ==> LinkAt(cells, ids, i))
    && Apart(ids)
    && (if ids == [] then head == NULL && tail == NULL else head == ids[0] && tail == ids[|ids| - 1])
  }

  ghost function CallbackAt(cells: seq<Cell>, n: nat): Callback {
    if n < |cells| && cells[n].Cell? then cells[n].cb else Callback(0, false)
  }

  ghost function ContentsOf(cells: seq<Cell>, ids: seq<nat>): seq<Callback> {
    seq(|ids|, i requires 0 <= i < |ids| => CallbackAt(cells, ids[i]))
  }

  lemma PushKeeps(cells: seq<Cell>, head: int, tail: int, ids: seq<nat>, cb: Callback)
    requires Listed(cells, head, tail, ids)
    ensures tail != NULL ==> 0 <= tail < |cells| && cells[tail].Cell?
    ensures var n, more := |cells|, cells + [Cell(cb, NULL)];
      var linked := if tail == NULL then more else more[tail := more[tail].(next := n)];
      && Listed(linked, if head == NULL then n else head, n, ids + [n])
      && ContentsOf(linked, ids + [n]) == ContentsOf(cells, ids) + [cb]
  {
    if ids != [] {
      assert LinkAt(cells, ids, |ids| - 1) && LinkAt(cells, ids, 0);
    }
    hide ContentsOf, CallbackAt;
    var n, more := |cells|, cells + [Cell(cb, NULL)];
    var linked, all := if tail == NULL then more else more[tail := more[tail].(next := n)], ids + [n];
    forall i: nat | i < |all|
      ensures LinkAt(linked, all, i)
      ensures i < |ids| ==> ids[i] < |cells| && CallbackAt(linked, ids[i]) == CallbackAt(cells, ids[i])
    {
      PushLink(cells, head, tail, ids, cb, i);
    }
    PushContents(cells, linked, ids, cb);
  }

  lemma PushLink(cells: seq<Cell>, head: int, tail: int, ids: seq<nat>, cb: Callback, i: nat)
    requires Listed(cells, head, tail, ids) && i <= |ids|
    requires tail != NULL ==> 0 <= tail < |cells| && cells[tail].Cell?
    ensures var n, more := |cells|, cells + [Cell(cb, NULL)];
      var linked := if tail == NULL then more else more[tail := more[tail].(next := n)];
      && LinkAt(linked, ids + [n], i)
      && (i < |ids| ==> ids[i] < |cells| && CallbackAt(linked, ids[i]) == CallbackAt(cells, ids[i]))
  {
    if i < |ids| {
      assert LinkAt(cells, ids, i) && LinkAt(cells, ids, |ids| - 1);
      assert i < |ids| - 1 ==> ids[i] != ids[|ids| - 1];
    }
  }

  lemma PushContents(cells: seq<Cell>, linked: seq<Cell>, ids: seq<nat>, cb: Callback)
    requires |linked| == |cells| + 1 && linked[|cells|].Cell? && linked[|cells|].cb == cb
    requires forall i :: 0 <= i < |ids| ==> ids[i] < |cells| && CallbackAt(linked, ids[i]) == CallbackAt(cells, ids[i])
    ensures ContentsOf(linked, ids + [|cells|]) == ContentsOf(cells, ids) + [cb]
  {
  }

  lemma ShiftKeeps(cells: seq<Cell>, head: int, tail: int, ids: seq<nat>)
    requires Listed(cells, head, tail, ids) && ids != []
    ensures 0 <= head < |cells| && cells[head].Cell?
    ensures Listed(cells[head := Released], cells[head].next, if head == tail then NULL else tail, ids[1..])
  {
    assert LinkAt(cells, ids, 0);
    assert |ids| > 1 ==> ids[0] != ids[|ids| - 1];
    var fewer, rest := cells[head := Released], ids[1..];
    forall i: nat | i < |rest|
      ensures LinkAt(fewer, rest, i)
    {
      ShiftLink(cells, head, tail, ids, i);
    }
  }

  lemma ShiftLink(cells: seq<Cell>, head: int, tail: int, ids: seq<nat>, i: nat)
    requires Listed(cells, head, tail, ids) && i + 1 < |ids| && 0 <= head < |cells|
    ensures ids[i + 1] < |cells| && ids[i + 1] != head && LinkAt(cells[head := Released], ids[1..], i)
  {
    assert LinkAt(cells, ids, i + 1) && ids[0] != ids[i + 1];
  }

  lemma ShiftContents(cells: seq<Cell>, head: int, tail: int, ids: seq<nat>)
    requires Listed(cells, head, tail, ids) && ids != []
    ensures 0 <= head < |cells| && cells[head].Cell?
    ensures ContentsOf(cells, ids) == [cells[head].cb] + ContentsOf(cells[head := Released], ids[1..])
  {
    assert LinkAt(cells, ids, 0);
    hide Listed, LinkAt;
    var fewer, rest := cells[head := Released], ids[1..];
    forall i: nat | i < |rest|
      ensures CallbackAt(fewer, rest[i]) == CallbackAt(cells, ids[i + 1])
    {
      ShiftLink(cells, head, tail, ids, i);
    }
  }

  /** The callback list: a singly linked list with head and tail pointers; shifted cells are released. */
  class CallbackList {
    var cells: seq<Cell>
    var head: int
    var tail: int
    ghost var ids: seq<nat>

    ghost predicate Valid()
      reads this
    {
      Listed(cells, head, tail, ids)
    }

    ghost function Contents(): seq<Callback>
      reads this
    {
      ContentsOf(cells, ids)
    }

    constructor ()
      ensures Valid() && Contents() == []
    {
      cells, head, tail, ids := [], NULL, NULL, [];
    }

    predicate Empty()
      requires Valid()
      reads this
      ensures Empty() <==> Contents() == []
    {
      head == NULL
    }

    method Push(source: Callback)
      requires Valid()
      modifies this
      ensures Valid() && Contents() == old(Contents()) + [source]
    {
      hide Listed, ContentsOf;
      PushKeeps(cells, head, tail, ids, source);
      var cb := |cells|;
      cells := cells + [Cell(source, NULL)];
      if head == NULL {
        head := cb;
      }
      if tail != NULL {
        cells := cells[tail := cells[tail].(next := cb)];
      }
      tail := cb;
      ids := ids + [cb];
    }

    method Shift() returns (target: Option<Callback>)
      requires Valid()
      modifies this
      ensures Valid()
      ensures old(Contents()) == [] ==> target.None? && Contents() == []
      ensures old(Contents()) != [] ==> target.Some? && old(Contents()) == [target.value] + Contents()
    {
      if head == NULL {
        return None;
      }
      ShiftKeeps(cells, head, tail, ids);
      ShiftContents(cells, head, tail, ids);
      hide Listed, ContentsOf;
      var cb := head;
      target := Some(cells[cb].cb);
      head := cells[cb].next;
      if cb == tail {
        tail := NULL;
      }
      cells := cells[cb := Released];
      ids := ids[1..];
    }
  }

  type Reply = seq<Byte>

  datatype Delivery = Delivery(cb: Callback, reply: Option<Reply>)

  /** What can happen to a context: calls by user code, and events of the connection and the event loop. */
  datatype Event =
    | UserCommand(cb: Callback) | UserDisconnect | UserFree | CallbackReturns
    | Connects(ok: bool, e: nat) | Readable | ReplyRead(r: Reply, isError: bool) | NothingToRead | Fails(e: nat) | Written
    | Timer

  /** Where the library stands: idle, or in a function that has called, or is about to call, user code. */
  datatype Control = Idle | Processing | Freeing | TimingOut | Connecting(ok: bool) | Disconnected | Freed

  /** A context at one moment. */
  datatype View = View(commands: seq<Callback>, server: seq<Reply>, delivered: seq<Delivery>, queue: seq<Callback>,
                       pc: Control, inCallback: bool, connected: bool, attached: bool, disconnecting: bool, freeing: bool,
                       obufEmpty: bool, timeoutReplyCount: int, noAutoFree: bool, disconnectRuns: nat)
  {
    /** No more commands are taken. */
    predicate Closed() {
      disconnecting || freeing
    }

    /** User code may run: inside a callback, or from the event loop while the library is idle. */
    predicate UserCode() {
      inCallback || pc.Idle?
    }

    /** The connection was ended: its last callback is running or has run. */
    predicate Ended() {
      pc.Disconnected? || pc.Freed?
    }

    /** The context is on its way to being freed, or is freed. */
    predicate Down() {
      pc.Freeing? || Ended() || (pc.TimingOut? && !noAutoFree)
    }

    /** How many callbacks may still have to return before such a context is freed. */
    function Left(): nat {
      match pc
      case Freeing | TimingOut => 2 + |queue|
      case Disconnected => 1
      case _ => 0
    }

    /** What holds at any time: in particular, the disconnect callback is run once by a connected context that ends. */
    ghost predicate Sound(hasOnDisconnect: bool) {
      && InOrder(commands, delivered, server, queue)
      && (inCallback <==> !pc.Idle? && !pc.Freed? && (pc.Processing? ==> inCallback))
      && (pc.Processing? || pc.Connecting? || pc.TimingOut? ==> attached)
      && (pc.Freeing? || Ended() ==> Closed()) && (Ended() ==> queue == [] && !attached)
      && (pc.Disconnected? ==> connected && hasOnDisconnect)
      && disconnectRuns == if Ended() && connected && hasOnDisconnect then 1 else 0
    }

    /**
     * Events that can happen now. A reply nobody asked for can only be an
     * error, and failures set an error code.
     */
    predicate Possible(e: Event) {
      match e
      case UserCommand(_) | UserDisconnect | UserFree => UserCode()
      case CallbackReturns => inCallback
      case Connects(ok, code) => pc.Idle? && attached && !connected && (ok || code != 0)
      case Readable | Written => pc.Idle? && attached && connected
      case ReplyRead(_, isError) => pc.Processing? && !inCallback && (isError || queue != [])
      case NothingToRead => pc.Processing? && !inCallback
      case Fails(code) => !inCallback && code != 0 && (pc.Processing? || (pc.Idle? && attached))
      case Timer => pc.Idle? && attached
    }

    /** The command that an event adds: one issued while the context takes commands. */
    function Accepts(e: Event): seq<Callback> {
      if e.UserCommand? && Possible(e) && !Closed() then [e.cb] else []
    }

    /** The reply that an event adds: one read while a command waits for it. */
    function Answers(e: Event): seq<Reply> {
      if e.ReplyRead? && Possible(e) && queue != [] then [e.r] else []
    }
  }

  /** How many of the pending callbacks are run in a row: up to the first that has a function. */
  function Reach(queue: seq<Callback>): (k: nat)
    ensures k <= |queue|
  {
    if queue == [] then 0 else if queue[0].hasFn then 1 else 1 + Reach(queue[1..])
  }

  /** One of the callbacks has a function. */
  predicate Calls(queue: seq<Callback>) {
    exists i :: 0 <= i < |queue| && queue[i].hasFn
  }

  lemma {:induction false} ReachIs(queue: seq<Callback>, k: nat)
    requires k <= |queue| && (k < |queue| ==> k > 0 && queue[k - 1].hasFn)
    requires forall i :: 0 <= i < k - 1 ==> !queue[i].hasFn
    ensures Reach(queue) == k
  {
    if k > 1 {
      ReachIs(queue[1..], k - 1);
    }
  }

  function Nulls(queue: seq<Callback>): seq<Delivery> {
    seq(|queue|, i requires 0 <= i < |queue| => Delivery(queue[i], None))
  }

  /** No reply is delivered, and the library stays where it is. */
  predicate Undisturbed(s: View, t: View) {
    t.delivered == s.delivered && t.queue == s.queue && t.pc == s.pc && t.inCallback == s.inCallback && t.attached == s.attached
  }

  /** The library is done, and nothing was delivered. */
  predicate GoesIdle(s: View, t: View) {
    t.delivered == s.delivered && t.queue == s.queue && t.pc.Idle? && !t.inCallback
  }

  /** Pending callbacks are run with NULL, up to the first that has a function. */
  predicate RunsPending(s: View, t: View) {
    var k := Reach(s.queue);
    t.delivered == s.delivered + Nulls(s.queue[..k]) && t.queue == s.queue[k..]
  }

  /** The end of a context with nothing pending. */
  predicate Finished(t: View, hasOnDisconnect: bool) {
    && t.pc == (if t.connected && hasOnDisconnect then Disconnected else Freed)
    && t.inCallback == t.pc.Disconnected? && !t.attached
  }

  /** The context is freed, as far as user code does not run. */
  predicate Frees(s: View, t: View, hasOnDisconnect: bool) {
    && RunsPending(s, t) && t.Closed()
    && if Calls(s.queue) then t.pc.Freeing? && t.inCallback && (t.attached ==> s.attached) else Finished(t, hasOnDisconnect)
  }

  /** The connection ends, and with it the context, unless it is to be kept. */
  predicate Ends(s: View, t: View, hasOnDisconnect: bool) {
    && t.Closed() && !t.attached
    && if t.noAutoFree then GoesIdle(s, t) else Frees(s, t, hasOnDisconnect)
  }

  /** The commands time out: when all have been told, the connection ends. */
  predicate TimesOut(s: View, t: View, hasOnDisconnect: bool) {
    && RunsPending(s, t)
    && if Calls(s.queue) then t.pc.TimingOut? && t.inCallback
       else t.Closed() && !t.attached && if t.noAutoFree then t.pc.Idle? && !t.inCallback else Finished(t, hasOnDisconnect)
  }

  /** After the connect callback: a failure ends the context, and so does a callback that asked for it. */
  predicate HasConnected(s: View, ok: bool, t: View, hasOnDisconnect: bool) {
    if !ok then Ends(s, t, hasOnDisconnect)
    else if s.disconnecting then
      !t.noAutoFree && if s.queue == [] then Ends(s, t, hasOnDisconnect) else GoesIdle(s, t) && t.attached
    else if s.freeing then Frees(s, t, hasOnDisconnect)
    else GoesIdle(s, t) && t.attached
  }

  /** After a callback, the function that ran it goes on where it was. */
  predicate GoesOn(s: View, t: View, hasOnDisconnect: bool) {
    match s.pc
    case Processing =>
      if s.freeing then Frees(s, t, hasOnDisconnect)
      else t.pc.Processing? && !t.inCallback && t.delivered == s.delivered && t.queue == s.queue
    case Freeing => Frees(s, t, hasOnDisconnect)
    case TimingOut => TimesOut(s, t, hasOnDisconnect)
    case Connecting(ok) => HasConnected(s, ok, t, hasOnDisconnect)
    case Disconnected => t.pc.Freed? && t.delivered == s.delivered
    case _ => true
  }

  /** A context is closed only when its connection ends, and a wish to keep it is dropped only if it is closed. */
  predicate Keeps(s: View, t: View) {
    && (s.disconnecting ==> t.disconnecting) && (t.disconnecting ==> s.disconnecting || !t.attached)
    && (t.noAutoFree ==> s.noAutoFree) && (s.noAutoFree ==> t.noAutoFree || t.disconnecting)
  }

  lemma Unchanged(s: View)
    ensures Keeps(s, s)
  {
  }

  /** What happens to a context depends on what is pending, not on where the library stands. */
  lemma Since(s: View, before: View, t: View, hasOnDisconnect: bool)
    requires before.delivered == s.delivered && before.queue == s.queue && before.attached == s.attached
    ensures Frees(before, t, hasOnDisconnect) == Frees(s, t, hasOnDisconnect)
    ensures Ends(before, t, hasOnDisconnect) == Ends(s, t, hasOnDisconnect)
    ensures TimesOut(before, t, hasOnDisconnect) == TimesOut(s, t, hasOnDisconnect)
    ensures before.disconnecting == s.disconnecting && before.freeing == s.freeing && before.noAutoFree == s.noAutoFree ==>
      && Keeps(before, t) == Keeps(s, t)
      && forall ok :: HasConnected(before, ok, t, hasOnDisconnect) == HasConnected(s, ok, t, hasOnDisconnect)
  {
  }

  /** What the user asks for stays asked for; a disconnect takes back that the context is to be kept. Output waits until written. */
  predicate Flags(s: View, e: Event, t: View) {
    && t.freeing == (s.freeing || e.UserFree?) && t.connected == (if e.Connects? then e.ok else s.connected)
    && t.obufEmpty == (e.Written? || (s.obufEmpty && s.Accepts(e) == []))
    && if e.UserDisconnect? then t.disconnecting && !t.noAutoFree else Keeps(s, t)
  }

  /** What one possible event does to a context. */
  ghost predicate Transition(s: View, e: Event, t: View, commandTimeout: bool, hasOnConnect: bool, hasOnDisconnect: bool) {
    && t.commands == s.commands + s.Accepts(e) && t.server == s.server + s.Answers(e) && Flags(s, e, t) && t.Sound(hasOnDisconnect)
    && match e
       case UserCommand(_) =>
         t.delivered == s.delivered && t.queue == s.queue + s.Accepts(e) && t.pc == s.pc && t.inCallback == s.inCallback
       case UserDisconnect =>
         if s.inCallback || s.queue != [] then Undisturbed(s, t) else !t.noAutoFree && Ends(s, t, hasOnDisconnect)
       case UserFree => if s.inCallback then Undisturbed(s, t) else Frees(s, t, hasOnDisconnect)
       case CallbackReturns => GoesOn(s, t, hasOnDisconnect)
       case Connects(ok, _) =>
         if hasOnConnect then t.pc == Connecting(ok) && t.inCallback && t.delivered == s.delivered && t.queue == s.queue
         else HasConnected(s, ok, t, hasOnDisconnect)
       case Readable => t.pc.Processing? && !t.inCallback && t.delivered == s.delivered && t.queue == s.queue
       case ReplyRead(r, _) =>
         if s.queue == [] then Ends(s, t, hasOnDisconnect)
         else && t.delivered == s.delivered + [Delivery(s.queue[0], Some(r))] && t.queue == s.queue[1..]
              && t.pc.Processing? && t.inCallback == s.queue[0].hasFn
       case NothingToRead =>
         if s.disconnecting && s.obufEmpty && s.queue == [] then Ends(s, t, hasOnDisconnect)
         else GoesIdle(s, t) && t.attached
       case Fails(_) => Ends(s, t, hasOnDisconnect)
       case Written => Undisturbed(s, t) && t.obufEmpty
       case Timer =>
         if s.connected && (s.queue == [] || !commandTimeout || s.timeoutReplyCount > 0) then Undisturbed(s, t)
         else if !s.connected && hasOnConnect then t.pc.TimingOut? && t.inCallback && t.delivered == s.delivered && t.queue == s.queue
         else TimesOut(s, t, hasOnDisconnect)
  }

  /**
   * The nth delivery is to the nth accepted command: with the nth reply from
   * the server, or with NULL when the server sent no more. What is not
   * delivered yet is queued, in order.
   */
  ghost predicate InOrder(commands: seq<Callback>, delivered: seq<Delivery>, server: seq<Reply>, queue: seq<Callback>) {
    && |server| <= |delivered| && |commands| == |delivered| + |queue|
    && (forall i :: 0 <= i < |delivered| ==>
      delivered[i] == Delivery(commands[i], if i < |server| then Some(server[i]) else None))
    && queue == commands[|delivered|..]
  }

  /** With no delivery of NULL so far, every reply of the server was delivered. */
  lemma Balanced(commands: seq<Callback>, delivered: seq<Delivery>, server: seq<Reply>, queue: seq<Callback>)
    requires InOrder(commands, delivered, server, queue) && |delivered| <= |server|
    ensures |delivered| == |server|
  {
  }

  lemma NullsSnoc(queue: seq<Callback>, k: nat)
    requires k < |queue|
    ensures Nulls(queue[..k + 1]) == Nulls(queue[..k]) + [Delivery(queue[k], None)]
  {
  }

  lemma DeliverNull(commands: seq<Callback>, delivered: seq<Delivery>, server: seq<Reply>, queue: seq<Callback>, cb: Callback)
    requires InOrder(commands, delivered, server, [cb] + queue)
    ensures InOrder(commands, delivered + [Delivery(cb, None)], server, queue)
  {
    assert ([cb] + queue)[1..] == queue && commands[|delivered|] == ([cb] + queue)[0];
    assert commands[|delivered|..][1..] == commands[|delivered| + 1..];
  }

  lemma DeliverReply(commands: seq<Callback>, delivered: seq<Delivery>, server: seq<Reply>, queue: seq<Callback>, cb: Callback, r: Reply)
    requires InOrder(commands, delivered, server, [cb] + queue) && |server| == |delivered|
    ensures InOrder(commands, delivered + [Delivery(cb, Some(r))], server + [r], queue)
  {
    assert ([cb] + queue)[1..] == queue && commands[|delivered|] == ([cb] + queue)[0];
    assert commands[|delivered|..][1..] == commands[|delivered| + 1..];
  }

  lemma Accept(commands: seq<Callback>, delivered: seq<Delivery>, server: seq<Reply>, queue: seq<Callback>, cb: Callback)
    requires InOrder(commands, delivered, server, queue)
    ensures InOrder(commands + [cb], delivered, server, queue + [cb])
  {
    assert (commands + [cb])[|delivered|..] == commands[|delivered|..] + [cb];
  }

  class AsyncContext {
    const replies: CallbackList
    const hasOnDisconnect: bool
    const hasOnConnect: bool
    const hasTimer: bool
    const commandTimeout: bool
    var inCallback: bool
    var freeing: bool
    var disconnecting: bool
    var connected: bool
    var noAutoFree: bool
    var attached: bool
    var cErr: nat
    var err: nat
    var obufEmpty: bool
    var timeoutReplyCount: int
    var pc: Control
    ghost var commands: seq<Callback>
    ghost var server: seq<Reply>
    ghost var delivered: seq<Delivery>
    ghost var disconnectRuns: nat

    ghost function Now(): View
      reads this, replies
    {
      View(commands, server, delivered, replies.Contents(), pc, inCallback, connected, attached, disconnecting, freeing,
           obufEmpty, timeoutReplyCount, noAutoFree, disconnectRuns)
    }

    /** Every accepted command is delivered or queued, in order, and nothing else is. */
    ghost predicate Accounted()
      reads this, replies
    {
      replies.Valid() && InOrder(commands, delivered, server, replies.Contents())
    }

    /** The context takes no more commands. */
    predicate Closed()
      reads this
    {
      disconnecting || freeing
    }

    /** What holds whenever a library function may be entered or resumed, over every run. */
    ghost predicate Valid()
      reads this, replies
    {
      && Accounted()
      && (|delivered| > |server| ==> pc.Freeing? || pc.TimingOut? || pc.Disconnected? || pc.Freed? || (pc.Idle? && !attached))
      && (pc.Freeing? || pc.Disconnected? || pc.Freed? ==> Closed())
      && (pc.Disconnected? || pc.Freed? ==> replies.Contents() == [])
      && (pc.Disconnected? ==> connected && hasOnDisconnect) && (pc.Disconnected? || pc.Freed? ==> !attached)
      && disconnectRuns == (if (pc.Disconnected? || pc.Freed?) && connected && hasOnDisconnect then 1 else 0)
      && (if inCallback then !pc.Idle? && !pc.Freed? else pc.Idle? || pc.Processing? || pc.Freed?)
      && (pc.Processing? || pc.Connecting? || pc.TimingOut? ==> attached)
      && (pc.TimingOut? || pc == Connecting(false) ==> cErr != 0)
      && TimerValid()
    }

    lemma SoundNow()
      requires Valid()
      ensures Now().Sound(hasOnDisconnect)
    {
    }

    /** Replies are counted only while a timer for commands runs. */
    predicate TimerValid()
      reads this
    {
      timeoutReplyCount == INACTIVE || (timeoutReplyCount >= 0 && hasTimer && commandTimeout)
    }

    /** User code may run: inside a callback, or from the event loop while the library is idle. */
    predicate UserCode()
      reads this
    {
      inCallback || pc.Idle?
    }

    constructor (onDisconnect: bool, onConnect: bool, keep: bool, timer: bool, timeout: bool)
      ensures Valid() && fresh(replies)
      ensures commandTimeout == timeout && hasOnConnect == onConnect && hasOnDisconnect == onDisconnect
      ensures Now() == View([], [], [], [], Idle, false, false, true, false, false, true, INACTIVE, keep, 0)
    {
      replies := new CallbackList();
      hasOnDisconnect, hasOnConnect, noAutoFree := onDisconnect, onConnect, keep;
      hasTimer, commandTimeout := timer, timeout;
      inCallback, freeing, disconnecting, connected, attached := false, false, false, false, true;
      cErr, err, obufEmpty, timeoutReplyCount, pc := 0, 0, true, INACTIVE, Idle;
      commands, server, delivered, disconnectRuns := [], [], [], 0;
    }

    /** The reply count with a timer running: a running timer is not restarted. */
    function Armed(): int
      reads this
    {
      if connected && timeoutReplyCount == INACTIVE && hasTimer && commandTimeout then 0 else timeoutReplyCount
    }

    /** refreshTimeout. */
    method RefreshTimeout()
      modifies this`timeoutReplyCount
      ensures timeoutReplyCount == old(Armed())
    {
      if connected {
        if timeoutReplyCount != INACTIVE {
          return;
        }
        if hasTimer && commandTimeout {
          timeoutReplyCount := 0;
        }
      }
    }

    /** valkeyAsyncAppendCmdLen for a regular command: refused once the context is closing, otherwise queued. */
    method Command(cb: Callback) returns (ok: bool)
      requires Valid() && UserCode()
      modifies this, replies
      ensures Valid() && ok == !old(Closed()) && pc == old(pc) && inCallback == old(inCallback)
      ensures delivered == old(delivered) && server == old(server) && disconnectRuns == old(disconnectRuns)
      ensures commands == if ok then old(commands) + [cb] else old(commands)
      ensures replies.Contents() == if ok then old(replies.Contents()) + [cb] else old(replies.Contents())
      ensures disconnecting == old(disconnecting) && freeing == old(freeing) && noAutoFree == old(noAutoFree) && connected == old(connected)
      ensures obufEmpty == (old(obufEmpty) && !ok) && timeoutReplyCount == if ok then old(Armed()) else old(timeoutReplyCount)
    {
      hide InOrder, Listed, ContentsOf;
      if disconnecting || freeing {
        return false;
      }
      Accept(commands, delivered, server, replies.Contents(), cb);
      replies.Push(cb);
      commands := commands + [cb];
      obufEmpty := false;
      RefreshTimeout();
      ok := true;
    }

    /** valkeyRunCallback up to the call: a null function is skipped. */
    method RunCallback(cb: Callback, reply: Option<Reply>)
      modifies this`inCallback, this`delivered
      ensures inCallback == (old(inCallback) || cb.hasFn)
      ensures delivered == old(delivered) + [Delivery(cb, reply)]
    {
      if cb.hasFn {
        inCallback := true;
      }
      delivered := delivered + [Delivery(cb, reply)];
    }

    /** Shifts the pending callbacks and runs them with NULL, up to the first that has a function. */
    method RunPending()
      requires Accounted() && !inCallback
      modifies this`delivered, this`inCallback, replies
      ensures Accounted() && RunsPending(old(Now()), Now())
      ensures inCallback <==> Calls(old(replies.Contents()))
      ensures !inCallback ==> replies.Contents() == []
    {
      hide InOrder, Listed, ContentsOf;
      ghost var queue, k := replies.Contents(), 0;
      var cb := replies.Shift();
      while cb.Some?
        invariant replies.Valid() && !inCallback && k <= |queue|
        invariant queue[k..] == (if cb.Some? then [cb.value] else []) + replies.Contents() && (cb.None? ==> k == |queue|)
        invariant InOrder(commands, delivered, server, queue[k..])
        invariant delivered == old(delivered) + Nulls(queue[..k]) && forall i :: 0 <= i < k ==> !queue[i].hasFn
        decreases |queue| - k
      {
        assert queue[k] == cb.value && queue[k..][1..] == queue[k + 1..];
        DeliverNull(commands, delivered, server, replies.Contents(), cb.value);
        NullsSnoc(queue, k);
        RunCallback(cb.value, None);
        k := k + 1;
        if inCallback {
          ReachIs(queue, k);
          return;
        }
        cb := replies.Shift();
      }
      ReachIs(queue, k);
    }

    /**
     * valkeyAsyncFreeInternal: runs the pending callbacks with NULL, then the
     * disconnect callback; it is re-entered here after each callback returns.
     */
    method FreeInternal()
      requires TimerValid() && Accounted() && !inCallback && Closed() && disconnectRuns == 0
      modifies this`pc, this`delivered, this`inCallback, this`attached, this`disconnectRuns, replies
      ensures Valid() && Frees(old(Now()), Now(), hasOnDisconnect) && Keeps(old(Now()), Now())
    {
      hide InOrder, Listed, ContentsOf;
      pc := Freeing;
      RunPending();
      if inCallback {
        return;
      }
      RunDisconnectCallback();
    }

    /** The end of valkeyAsyncFreeInternal, once nothing is pending. */
    method RunDisconnectCallback()
      requires TimerValid() && Accounted() && !inCallback && Closed() && disconnectRuns == 0 && replies.Contents() == []
      modifies this`attached, this`disconnectRuns, this`inCallback, this`pc
      ensures Valid() && Finished(Now(), hasOnDisconnect)
    {
      hide InOrder, Listed, ContentsOf;
      attached := false;
      if connected && hasOnDisconnect {
        disconnectRuns := disconnectRuns + 1;
        inCallback := true;
        pc := Disconnected;
      } else {
        pc := Freed;
      }
    }

    /** The connection was ended: its last callback is running or has run. */
    predicate Ended()
      reads this
    {
      pc.Disconnected? || pc.Freed?
    }

    /** valkeyAsyncFree: defers to the running library function when called from a callback. */
    method Free()
      requires Valid() && UserCode()
      modifies this`freeing, this`pc, this`delivered, this`inCallback, this`attached, this`disconnectRuns, replies
      ensures Valid() && freeing
      ensures if old(inCallback) then Undisturbed(old(Now()), Now()) else Frees(old(Now()), Now(), hasOnDisconnect)
    {
      freeing := true;
      if !inCallback {
        FreeInternal();
      }
    }

    /**
     * valkeyAsyncDisconnectInternal. Without an error there must be no pending
     * callback, which the source asserts.
     */
    method DisconnectInternal()
      requires TimerValid() && Accounted() && !inCallback && disconnectRuns == 0
      requires cErr == 0 ==> disconnecting && replies.Contents() == []
      modifies this`err, this`disconnecting, this`pc, this`delivered, this`inCallback, this`attached, this`disconnectRuns, replies
      ensures Valid() && Ends(old(Now()), Now(), hasOnDisconnect) && Keeps(old(Now()), Now())
    {
      hide InOrder, Listed, ContentsOf;
      err := cErr;
      if err == 0 {
        var pending := replies.Shift();
        assert pending.None?;
      } else {
        disconnecting := true;
      }
      attached := false;
      if !noAutoFree {
        FreeInternal();
      } else {
        pc := Idle;
      }
    }

    /** valkeyAsyncDisconnect: immediate only outside callbacks and with nothing pending. */
    method Disconnect()
      requires Valid() && UserCode()
      modifies this`err, this`disconnecting, this`noAutoFree
      modifies this`pc, this`delivered, this`inCallback, this`attached, this`disconnectRuns, replies
      ensures Valid() && disconnecting && !noAutoFree
      ensures if old(inCallback || replies.Contents() != []) then Undisturbed(old(Now()), Now())
              else Ends(old(Now()), Now(), hasOnDisconnect)
    {
      EmptyList();
      hide InOrder, Listed, ContentsOf;
      disconnecting := true;
      noAutoFree := false;
      if !inCallback && replies.head == NULL {
        DisconnectInternal();
      }
    }

    lemma EmptyList()
      requires replies.Valid()
      ensures replies.head == NULL <==> replies.Contents() == []
    {
    }

    /** A readable socket: valkeyProcessCallbacks begins. */
    method HandleRead()
      requires Valid() && pc.Idle? && !inCallback && connected && attached
      modifies this`timeoutReplyCount, this`pc
      ensures Valid() && pc == Processing
      ensures timeoutReplyCount == old(Armed())
    {
      RefreshTimeout();
      pc := Processing;
    }

    /** An I/O error on the connection. */
    method HandleError(e: nat)
      requires Valid() && !inCallback && e != 0 && (pc.Processing? || (pc.Idle? && attached))
      modifies this`cErr, this`err, this`disconnecting
      modifies this`pc, this`delivered, this`inCallback, this`attached, this`disconnectRuns, replies
      ensures Valid() && Ends(old(Now()), Now(), hasOnDisconnect) && Keeps(old(Now()), Now())
    {
      cErr := e;
      DisconnectInternal();
    }

    /** All commands are written out. */
    method HandleWrite()
      requires Valid() && pc.Idle? && !inCallback && connected && attached
      modifies this`obufEmpty, this`timeoutReplyCount
      ensures Valid() && obufEmpty && timeoutReplyCount == old(Armed())
    {
      obufEmpty := true;
      RefreshTimeout();
    }

    /** valkeyProcessCallbacks: no further reply is available. */
    method NoReply()
      requires Valid() && pc.Processing? && !inCallback
      modifies this`err, this`disconnecting, this`pc, this`delivered, this`inCallback, this`attached, this`disconnectRuns, replies
      ensures Valid() && Keeps(old(Now()), Now())
      ensures if old(disconnecting && obufEmpty && replies.Contents() == []) then Ends(old(Now()), Now(), hasOnDisconnect)
              else GoesIdle(old(Now()), Now()) && attached
    {
      EmptyList();
      hide InOrder, Listed, ContentsOf;
      if disconnecting && obufEmpty && replies.head == NULL {
        DisconnectInternal();
      } else {
        pc := Idle;
      }
    }

    /**
     * valkeyProcessCallbacks: a reply to a regular command. An error reply
     * nobody asked for closes the connection.
     */
    method GotReply(r: Reply, isError: bool)
      requires Valid() && pc.Processing? && !inCallback && (isError || replies.Contents() != [])
      modifies this`timeoutReplyCount, this`cErr, this`err, this`disconnecting, this`server
      modifies this`pc, this`delivered, this`inCallback, this`attached, this`disconnectRuns, replies
      ensures Valid() && Keeps(old(Now()), Now())
      ensures old(replies.Contents()) != [] ==>
        && server == old(server) + [r] && delivered == old(delivered) + [Delivery(old(replies.Contents())[0], Some(r))]
        && replies.Contents() == old(replies.Contents())[1..]
        && pc == Processing && inCallback == old(replies.Contents())[0].hasFn && attached
      ensures old(replies.Contents()) == [] ==> server == old(server) && Ends(old(Now()), Now(), hasOnDisconnect)
      ensures timeoutReplyCount == if old(timeoutReplyCount) == INACTIVE then INACTIVE else old(timeoutReplyCount) + 1
    {
      hide InOrder, Listed, ContentsOf;
      if timeoutReplyCount != INACTIVE {
        timeoutReplyCount := timeoutReplyCount + 1;
      }
      Balanced(commands, delivered, server, replies.Contents());
      var cb := replies.Shift();
      if cb.None? {
        cErr := VALKEY_ERR_OTHER;
        DisconnectInternal();
        return;
      }
      DeliverReply(commands, delivered, server, replies.Contents(), cb.value, r);
      server := server + [r];
      RunCallback(cb.value, Some(r));
    }

    /**
     * The timer fires: a connection without pending commands, without a
     * command timeout, or with a reply since the timer was started goes on.
     * Otherwise every pending callback is run with NULL.
     */
    method HandleTimeout()
      requires Valid() && pc.Idle? && !inCallback && attached
      modifies this`timeoutReplyCount, this`cErr, this`err, this`disconnecting
      modifies this`pc, this`delivered, this`inCallback, this`attached, this`disconnectRuns, replies
      ensures Valid() && Keeps(old(Now()), Now())
      ensures if old(connected && (replies.Contents() == [] || !commandTimeout || timeoutReplyCount > 0))
              then Undisturbed(old(Now()), Now()) && cErr == old(cErr)
              else && cErr != 0
                   && if old(!connected && hasOnConnect)
                      then pc.TimingOut? && inCallback && delivered == old(delivered) && replies.Contents() == old(replies.Contents())
                      else TimesOut(old(Now()), Now(), hasOnDisconnect)
      ensures old(connected && replies.Contents() != [] && timeoutReplyCount > 0) ==> timeoutReplyCount == 0
    {
      EmptyList();
      hide InOrder, Listed, ContentsOf;
      if connected {
        if replies.head == NULL {
          timeoutReplyCount := INACTIVE;
          return;
        }
        if !commandTimeout {
          return;
        }
        if timeoutReplyCount > 0 {
          timeoutReplyCount := INACTIVE;
          RefreshTimeout();
          return;
        }
      }
      if cErr == 0 {
        cErr := VALKEY_ERR_TIMEOUT;
        err := cErr;
      }
      if !connected && hasOnConnect {
        inCallback := true;
        pc := TimingOut;
        return;
      }
      DrainTimedOut();
    }

    /** The rest of valkeyAsyncHandleTimeout, re-entered after each callback returns. */
    method DrainTimedOut()
      requires TimerValid() && Accounted() && !inCallback && disconnectRuns == 0 && cErr != 0 && attached
      modifies this`err, this`disconnecting, this`pc, this`delivered, this`inCallback, this`attached, this`disconnectRuns, replies
      ensures Valid() && TimesOut(old(Now()), Now(), hasOnDisconnect)
      ensures Keeps(old(Now()), Now())
    {
      hide InOrder, Listed, ContentsOf;
      pc := TimingOut;
      RunPending();
      if inCallback {
        return;
      }
      DisconnectInternal();
    }

    /** The connection attempt ends; a failure leaves an error code in the context. */
    method HandleConnect(ok: bool, e: nat)
      requires Valid() && pc.Idle? && !inCallback && attached && !connected && (ok || e != 0)
      modifies this`connected, this`noAutoFree, this`cErr, this`err, this`disconnecting, this`freeing
      modifies this`pc, this`delivered, this`inCallback, this`attached, this`disconnectRuns, replies
      ensures Valid() && connected == ok && freeing == old(freeing) && Keeps(old(Now()), Now())
      ensures if hasOnConnect then pc == Connecting(ok) && inCallback && delivered == old(delivered) && replies.Contents() == old(replies.Contents())
              else HasConnected(old(Now()), ok, Now(), hasOnDisconnect)
    {
      hide InOrder, Listed, ContentsOf, HasConnected;
      if ok {
        connected := true;
      } else {
        cErr := e;
      }
      if hasOnConnect {
        inCallback := true;
        pc := Connecting(ok);
      } else {
        ghost var before := Now();
        Connected(ok);
        Since(old(Now()), before, Now(), hasOnDisconnect);
      }
    }

    /** After the connect callback: a callback that disconnected or freed the context is honoured. */
    method Connected(ok: bool)
      requires TimerValid() && Accounted() && !inCallback && disconnectRuns == 0 && attached && (ok || cErr != 0)
      requires |delivered| <= |server|
      modifies this`noAutoFree, this`err, this`disconnecting, this`freeing
      modifies this`pc, this`delivered, this`inCallback, this`attached, this`disconnectRuns, replies
      ensures Valid() && HasConnected(old(Now()), ok, Now(), hasOnDisconnect)
      ensures freeing == old(freeing) && Keeps(old(Now()), Now())
    {
      hide InOrder, Listed, ContentsOf, Frees, Ends;
      pc := Idle;
      ghost var before := Now();
      if !ok {
        DisconnectInternal();
      } else if disconnecting {
        Disconnect();
      } else if freeing {
        Free();
      }
      Since(old(Now()), before, Now(), hasOnDisconnect);
    }

    /** User code returns to the library function that called it. */
    method Return()
      requires Valid() && inCallback
      modifies this`noAutoFree, this`err, this`disconnecting, this`freeing
      modifies this`pc, this`delivered, this`inCallback, this`attached, this`disconnectRuns, replies
      ensures Valid() && GoesOn(old(Now()), Now(), hasOnDisconnect)
      ensures freeing == old(freeing) && Keeps(old(Now()), Now())
    {
      hide InOrder, Listed, ContentsOf, Frees, TimesOut, HasConnected, Keeps;
      inCallback := false;
      ghost var before := Now();
      Unchanged(before);
      match pc {
        case Processing =>
          if freeing {
            FreeInternal();
          }
        case Freeing => FreeInternal();
        case TimingOut => DrainTimedOut();
        case Connecting(ok) => Connected(ok);
        case Disconnected =>
          pc := Freed;
          Unchanged(Now());
          Since(Now(), before, Now(), hasOnDisconnect);
      }
      Since(old(Now()), before, Now(), hasOnDisconnect);
    }

    /** Whether an event can happen now. */
    predicate Possible(e: Event)
      requires replies.Valid()
      reads this, replies
      ensures Possible(e) <==> Now().Possible(e)
    {
      match e
      case UserCommand(_) | UserDisconnect | UserFree => UserCode()
      case CallbackReturns => inCallback
      case Connects(ok, code) => pc.Idle? && attached && !connected && (ok || code != 0)
      case Readable | Written => pc.Idle? && attached && connected
      case ReplyRead(_, isError) => pc.Processing? && !inCallback && (isError || !replies.Empty())
      case NothingToRead => pc.Processing? && !inCallback
      case Fails(code) => !inCallback && code != 0 && (pc.Processing? || (pc.Idle? && attached))
      case Timer => pc.Idle? && attached
    }

    /** One event. */
    method Step(e: Event)
      requires Valid() && Possible(e)
      modifies this, replies
      ensures Valid() && Transition(old(Now()), e, Now(), commandTimeout, hasOnConnect, hasOnDisconnect)
    {
      hide InOrder, Listed, ContentsOf, Transition;
      if e.UserCommand? || e.UserDisconnect? || e.UserFree? || e.CallbackReturns? {
        UserStep(e);
      } else if e.ReplyRead? || e.NothingToRead? || e.Readable? {
        ReadStep(e);
      } else {
        LoopStep(e);
      }
    }

    method UserStep(e: Event)
      requires Valid() && Possible(e) && (e.UserCommand? || e.UserDisconnect? || e.UserFree? || e.CallbackReturns?)
      modifies this, replies
      ensures Valid() && Transition(old(Now()), e, Now(), commandTimeout, hasOnConnect, hasOnDisconnect)
    {
      hide InOrder, Listed, ContentsOf, Frees, Ends, TimesOut, HasConnected, GoesOn, View.Sound;
      match e {
        case UserCommand(cb) => var _ := Command(cb);
        case UserDisconnect => Disconnect();
        case UserFree => Free();
        case CallbackReturns => Return();
      }
      SoundNow();
    }

    method ReadStep(e: Event)
      requires Valid() && Possible(e) && (e.ReplyRead? || e.NothingToRead? || e.Readable?)
      modifies this, replies
      ensures Valid() && Transition(old(Now()), e, Now(), commandTimeout, hasOnConnect, hasOnDisconnect)
    {
      hide InOrder, Listed, ContentsOf, Frees, Ends, TimesOut, HasConnected, GoesOn, View.Sound;
      match e {
        case Readable => HandleRead();
        case ReplyRead(r, isError) => GotReply(r, isError);
        case NothingToRead => NoReply();
      }
      SoundNow();
    }

    method LoopStep(e: Event)
      requires Valid() && Possible(e) && (e.Connects? || e.Fails? || e.Written? || e.Timer?)
      modifies this, replies
      ensures Valid() && Transition(old(Now()), e, Now(), commandTimeout, hasOnConnect, hasOnDisconnect)
    {
      hide InOrder, Listed, ContentsOf, Frees, Ends, TimesOut, HasConnected, GoesOn, View.Sound;
      match e {
        case Connects(ok, code) => HandleConnect(ok, code);
        case Fails(code) => HandleError(code);
        case Written => HandleWrite();
        case Timer => HandleTimeout();
      }
      SoundNow();
    }
  }

  /** A callback was run with its own reply, or with NULL if the server sent none for it, at most once and in order. */
  ghost predicate ExactlyOnce(commands: seq<Callback>, delivered: seq<Delivery>, server: seq<Reply>) {
    && |server| <= |delivered| <= |commands|
    && forall i :: 0 <= i < |delivered| ==>
      delivered[i] == Delivery(commands[i], if i < |server| then Some(server[i]) else None)
  }

  lemma DeliveredOnce(c: AsyncContext)
    requires c.Valid()
    ensures ExactlyOnce(c.commands, c.delivered, c.server)
    ensures c.Ended() ==> |c.delivered| == |c.commands|
    ensures c.disconnectRuns <= 1 && (c.disconnectRuns == 1 ==> c.Ended())
  {
  }

  /** The commands accepted, and the replies received, in the first n events of a run. */
  ghost function Accepted(events: seq<Event>, views: seq<View>, n: nat): seq<Callback>
    requires n <= |events| && n <= |views|
  {
    if n == 0 then [] else Accepted(events, views, n - 1) + views[n - 1].Accepts(events[n - 1])
  }

  ghost function Answered(events: seq<Event>, views: seq<View>, n: nat): seq<Reply>
    requires n <= |events| && n <= |views|
  {
    if n == 0 then [] else Answered(events, views, n - 1) + views[n - 1].Answers(events[n - 1])
  }

  /** What an event does to a context; one that is not possible changes nothing. */
  ghost predicate Moves(s: View, e: Event, t: View, commandTimeout: bool, hasOnConnect: bool, hasOnDisconnect: bool) {
    if s.Possible(e) then Transition(s, e, t, commandTimeout, hasOnConnect, hasOnDisconnect) else t == s
  }

  ghost function Machine(commandTimeout: bool, hasOnConnect: bool, hasOnDisconnect: bool): (View, Event, View) -> bool {
    (s: View, e: Event, t: View) => Moves(s, e, t, commandTimeout, hasOnConnect, hasOnDisconnect)
  }

  /** A run of a context from before it is connected. */
  ghost predicate RunOf(events: seq<Event>, views: seq<View>, timeout: bool, onConnect: bool, onDisconnect: bool, keep: bool) {
    IsRun(Machine(timeout, onConnect, onDisconnect), First(keep), events, views)
  }

  /** A context before it is connected. */
  ghost function First(keep: bool): View {
    View([], [], [], [], Idle, false, false, true, false, false, true, INACTIVE, keep, 0)
  }

  /** Every state of a run is sound, and only possible events change it. */
  lemma {:induction false} RunSound(events: seq<Event>, views: seq<View>, timeout: bool, onConnect: bool, onDisconnect: bool, keep: bool, n: nat)
    requires RunOf(events, views, timeout, onConnect, onDisconnect, keep) && n <= |events|
    ensures |views| == |events| + 1
    ensures views[n].Sound(onDisconnect)
    ensures n < |events| ==> Moves(views[n], events[n], views[n + 1], timeout, onConnect, onDisconnect)
  {
    hide InOrder;
    if n < |events| {
      assert Machine(timeout, onConnect, onDisconnect)(views[n], events[n], views[n + 1]);
    }
    if n > 0 {
      RunSound(events, views, timeout, onConnect, onDisconnect, keep, n - 1);
    } else {
      FirstSound(keep, onDisconnect);
    }
  }

  lemma FirstSound(keep: bool, onDisconnect: bool)
    ensures First(keep).Sound(onDisconnect)
  {
  }

  lemma EventAdds(s: View, e: Event, t: View, timeout: bool, onConnect: bool, onDisconnect: bool)
    requires Moves(s, e, t, timeout, onConnect, onDisconnect)
    ensures t.commands == s.commands + s.Accepts(e) && t.server == s.server + s.Answers(e)
  {
    hide View.Sound, View.Possible;
  }

  /** In a run, the commands and replies are those of its events. */
  lemma {:induction false} FromEvents(events: seq<Event>, views: seq<View>, timeout: bool, onConnect: bool, onDisconnect: bool, keep: bool, n: nat)
    requires RunOf(events, views, timeout, onConnect, onDisconnect, keep) && n <= |events|
    ensures |views| == |events| + 1
    ensures views[n].commands == Accepted(events, views, n) && views[n].server == Answered(events, views, n)
  {
    hide Moves, View.Sound, View.Accepts, View.Answers;
    if n > 0 {
      hide RunOf;
      FromEvents(events, views, timeout, onConnect, onDisconnect, keep, n - 1);
      RunSound(events, views, timeout, onConnect, onDisconnect, keep, n - 1);
      EventAdds(views[n - 1], events[n - 1], views[n], timeout, onConnect, onDisconnect);
    }
  }

  /** How many callbacks return in events n to m. */
  function Returns(events: seq<Event>, n: nat, m: nat): nat
    requires n <= m <= |events|
    decreases m
  {
    if n == m then 0 else Returns(events, n, m - 1) + if events[m - 1].CallbackReturns? then 1 else 0
  }

  /** Each return of a callback brings a context that is going down closer to being freed; only a command sent anew,
      which is taken until the timed out commands have all been told, does the contrary. */
  lemma StepDown(s: View, e: Event, t: View, timeout: bool, onConnect: bool, onDisconnect: bool)
    requires s.Sound(onDisconnect) && s.Down() && Moves(s, e, t, timeout, onConnect, onDisconnect)
    ensures t.Down() && t.connected == s.connected && t.server == s.server && s.commands <= t.commands
    ensures t.pc.Freed? || t.Left() + (if e.CallbackReturns? then 1 else 0) <= s.Left() + |t.commands| - |s.commands|
    ensures s.pc.Freed? ==> t == s
    ensures !s.pc.TimingOut? ==> !t.pc.TimingOut? && t.commands == s.commands
  {
    hide InOrder;
    if e.CallbackReturns? {
      SomeReached(s.queue);
    }
  }

  lemma SomeReached(queue: seq<Callback>)
    ensures queue != [] ==> Reach(queue) > 0
  {
  }

  /** A context that is going down is freed once enough callbacks have returned. */
  lemma {:induction false} WindsDown(events: seq<Event>, views: seq<View>, timeout: bool, onConnect: bool, onDisconnect: bool, keep: bool, n: nat, m: nat)
    requires RunOf(events, views, timeout, onConnect, onDisconnect, keep) && n <= m <= |events|
    requires views[n].Down()
    ensures |views| == |events| + 1
    ensures views[m].Down() && views[m].connected == views[n].connected && views[m].server == views[n].server
    ensures views[n].commands <= views[m].commands
    ensures views[m].pc.Freed? || views[m].Left() + Returns(events, n, m) <= views[n].Left() + |views[m].commands| - |views[n].commands|
    ensures !views[n].pc.TimingOut? ==> !views[m].pc.TimingOut? && views[m].commands == views[n].commands
    decreases m
  {
    hide Moves, View.Sound, View.Down, View.Left, RunOf;
    RunSound(events, views, timeout, onConnect, onDisconnect, keep, n);
    if n < m {
      WindsDown(events, views, timeout, onConnect, onDisconnect, keep, n, m - 1);
      RunSound(events, views, timeout, onConnect, onDisconnect, keep, m - 1);
      StepDown(views[m - 1], events[m - 1], views[m], timeout, onConnect, onDisconnect);
    }
  }

  /** The events that end a context: failures and time-outs, unless it is to be kept, and the user's wish as soon as nothing stands against it. */
  predicate EndsContext(s: View, e: Event, commandTimeout: bool, hasOnConnect: bool) {
    s.Possible(e)
    && match e
       case Fails(_) => !s.noAutoFree
       case Timer => !s.noAutoFree && !(s.connected && (s.queue == [] || !commandTimeout || s.timeoutReplyCount > 0))
       case ReplyRead(_, _) => !s.noAutoFree && s.queue == []
       case NothingToRead => !s.noAutoFree && s.disconnecting && s.obufEmpty && s.queue == []
       case UserDisconnect => !s.inCallback && s.queue == []
       case UserFree => !s.inCallback
       case Connects(ok, _) => !hasOnConnect && if ok then s.disconnecting && s.queue == [] else !s.noAutoFree
       case CallbackReturns =>
         || (s.pc.Processing? && s.freeing)
         || (s.pc == Connecting(false) && !s.noAutoFree)
         || (s.pc == Connecting(true) && if s.disconnecting then s.queue == [] else s.freeing)
       case _ => false
  }

  /** Once enough callbacks have returned after such an event, the context is freed: what was pending got NULL, also the commands
      that time-out callbacks sent anew, and a connected context has run its disconnect callback once. */
  lemma FreedInTheEnd(events: seq<Event>, views: seq<View>, timeout: bool, onConnect: bool, onDisconnect: bool, keep: bool, n: nat, m: nat)
    requires RunOf(events, views, timeout, onConnect, onDisconnect, keep) && n < m <= |events|
    requires EndsContext(views[n], events[n], timeout, onConnect)
    requires Returns(events, n + 1, m) >= 2 + |views[n + 1].queue| + |views[m].commands| - |views[n + 1].commands|
    ensures |views| == |events| + 1
    ensures var before, v := views[n + 1], views[m];
      && v.pc.Freed? && !v.attached && v.queue == [] && |v.delivered| == |v.commands| && before.commands <= v.commands
      && (forall i :: |before.delivered| <= i < |v.delivered| ==> v.delivered[i] == Delivery(v.commands[i], None))
      && v.disconnectRuns == (if before.connected && onDisconnect then 1 else 0)
    ensures !views[n + 1].pc.TimingOut? ==> views[m].commands == views[n + 1].commands
  {
    hide RunOf, Moves;
    RunSound(events, views, timeout, onConnect, onDisconnect, keep, n);
    GoingDown(views[n], events[n], views[n + 1], timeout, onConnect, onDisconnect);
    WindsDown(events, views, timeout, onConnect, onDisconnect, keep, n + 1, m);
    RunSound(events, views, timeout, onConnect, onDisconnect, keep, n + 1);
    RunSound(events, views, timeout, onConnect, onDisconnect, keep, m);
  }

  lemma GoingDown(s: View, e: Event, t: View, timeout: bool, onConnect: bool, onDisconnect: bool)
    requires s.Sound(onDisconnect) && EndsContext(s, e, timeout, onConnect) && Moves(s, e, t, timeout, onConnect, onDisconnect)
    ensures t.Down()
  {
    hide InOrder;
  }

  /** From event n on, k times a command is sent and then a callback returns. */
  predicate Resends(events: seq<Event>, cb: Callback, n: nat, k: nat) {
    k > 0 ==>
      && Resends(events, cb, n, k - 1) && n + 2 * k <= |events|
      && events[n + 2 * k - 2] == UserCommand(cb) && events[n + 2 * k - 1] == CallbackReturns
  }

  /**
   * A callback that answers the time-out of its command by sending it again is called again at
   * once: the time-out handler does not come to an end as long as this goes on.
   */
  lemma {:induction false} ResendingGoesOn(events: seq<Event>, views: seq<View>, timeout: bool, onConnect: bool, onDisconnect: bool, keep: bool,
                                           cb: Callback, n: nat, k: nat)
    requires RunOf(events, views, timeout, onConnect, onDisconnect, keep) && n + 2 * k <= |events|
    requires views[n].pc.TimingOut? && !views[n].Closed() && views[n].queue == [] && cb.hasFn
    requires Resends(events, cb, n, k)
    ensures |views| == |events| + 1
    ensures var v := views[n + 2 * k];
      v.pc.TimingOut? && !v.Closed() && v.queue == [] && |v.delivered| == |views[n].delivered| + k
    decreases k
  {
    hide Moves, View.Sound, RunOf;
    RunSound(events, views, timeout, onConnect, onDisconnect, keep, n);
    if k > 0 {
      var i := n + 2 * k - 2;
      ResendingGoesOn(events, views, timeout, onConnect, onDisconnect, keep, cb, n, k - 1);
      RunSound(events, views, timeout, onConnect, onDisconnect, keep, i);
      RunSound(events, views, timeout, onConnect, onDisconnect, keep, i + 1);
      SentAnew(views[i], views[i + 1], views[i + 2], cb, timeout, onConnect, onDisconnect);
    }
  }

  lemma SentAnew(s: View, u: View, t: View, cb: Callback, timeout: bool, onConnect: bool, onDisconnect: bool)
    requires s.Sound(onDisconnect) && s.pc.TimingOut? && !s.Closed() && s.queue == [] && cb.hasFn
    requires Moves(s, UserCommand(cb), u, timeout, onConnect, onDisconnect)
    requires Moves(u, CallbackReturns, t, timeout, onConnect, onDisconnect)
    ensures t.pc.TimingOut? && !t.Closed() && t.queue == [] && |t.delivered| == |s.delivered| + 1
  {
    hide InOrder;
    assert u.queue == [cb] && Reach([cb]) == 1;
    assert Calls(u.queue) by { assert u.queue[0].hasFn; }
  }

  /**
   * Every run: whatever happens in whatever order, callbacks calling back
   * included, each accepted command's callback runs exactly once by the end,
   * and the disconnect callback at most once, after all of them.
   */
  method Run(events: seq<Event>, onDisconnect: bool, onConnect: bool, keep: bool, timer: bool, timeout: bool)
    returns (c: AsyncContext, ghost views: seq<View>)
    ensures RunOf(events, views, timeout, onConnect, onDisconnect, keep)
    ensures fresh(c) && c.Valid() && views[|events|] == c.Now()
    ensures c.commands == Accepted(events, views, |events|) && c.server == Answered(events, views, |events|)
    ensures ExactlyOnce(c.commands, c.delivered, c.server)
    ensures c.Ended() ==> |c.delivered| == |c.commands|
    ensures c.disconnectRuns <= 1 && (c.disconnectRuns == 1 ==> c.Ended())
  {
    hide InOrder, Listed, ContentsOf, ExactlyOnce, Transition, Accepted, Answered;
    c := new AsyncContext(onDisconnect, onConnect, keep, timer, timeout);
    views := [c.Now()];
    for i := 0 to |events|
      invariant c.Valid() && fresh(c) && fresh(c.replies)
      invariant c.commandTimeout == timeout && c.hasOnConnect == onConnect && c.hasOnDisconnect == onDisconnect
      invariant RunOf(events[..i], views, timeout, onConnect, onDisconnect, keep) && views[i] == c.Now()
    {
      if c.Possible(events[i]) {
        c.Step(events[i]);
      }
      RunOn(Machine(timeout, onConnect, onDisconnect), First(keep), events[..i], views, events[i], c.Now());
      assert events[..i + 1] == events[..i] + [events[i]];
      views := views + [c.Now()];
    }
    assert events[..|events|] == events;
    FromEvents(events, views, timeout, onConnect, onDisconnect, keep, |events|);
    DeliveredOnce(c);
  }
}
