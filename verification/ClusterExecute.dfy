/**
 * The blocking cluster client: one command is sent, redirected and retried
 * until a node answers it, in a world that may answer anything.
 */
module ClusterExecute {
  import opened Bytes
  import opened ClusterReplies

  /** A node, by its address. */
  type Node = nat

  /** Slots with the nodes that serve them. */
  type Table = map<nat, Node>

  /** What asking for a connection to a node gives. */
  datatype Contact = NoContext(e: nat) | Broken(e: nat) | Usable

  /** Where a redirect sends the client; the slot is negative when it names none. */
  datatype Redirect = Redirect(node: Node, slot: int)

  /** The answers of the network to the client's calls, in the order of the calls. */
  datatype World = World(
    refresh: nat -> Result<Table, nat>,
    contact: (nat, Node) -> Contact,
    append: nat -> Result<(), nat>,
    routeSend: nat -> Result<(), nat>,
    answer: nat -> Result<Reply, nat>,
    redirect: (Reply, Node) -> Result<Redirect, nat>)

  datatype Via = ByTable | ByMoved | ByAsk

  /** What a context sends: the command, a slot map request with it, ASKING, or slot map requests of a refresh. */
  datatype Message = CommandTo(to: Node) | SlotmapTo(to: Node) | AskingTo(to: Node) | Refresh

  /**
   * One transmission of the command: the node the table named at the time,
   * whether ASKING was what the context sent right before, and the answer.
   */
  datatype Attempt = Attempt(to: Node, via: Via, served: Option<Node>, asked: bool, answer: Option<Reply>)

  /** A world that refuses nothing, and in which every refresh finds a node for the slot. */
  ghost predicate Cooperative(w: World, slot: nat) {
    && (forall t: nat :: w.refresh(t).Ok? && slot in w.refresh(t).value)
    && (forall t: nat, n: Node :: w.contact(t, n).Usable?)
    && (forall t: nat :: w.append(t).Ok?)
    && (forall t: nat :: w.answer(t).Ok?)
    && (forall r: Reply, n: Node :: w.redirect(r, n).Ok?)
  }

  /** The redirect that answers attempt `p` names node `to`. */
  ghost predicate Names(w: World, p: Attempt, to: Node) {
    p.answer.Some? && w.redirect(p.answer.value, p.to).Ok? && to == w.redirect(p.answer.value, p.to).value.node
  }

  /** Attempt `n` is what the answer to attempt `p` asks for. */
  ghost predicate Follows(w: World, p: Attempt, n: Attempt) {
    && p.answer.Some? && Retryable(p.answer.value)
    && match GetReplyErrorType(p.answer.value)
       case MovedError => n.via == ByMoved && Names(w, p, n.to)
       case AskError => n.via == ByAsk && n.asked && Names(w, p, n.to)
       case _ => n.via == ByTable && n.served == Some(n.to)
  }

  /** A run: it starts at the node serving the slot, and each attempt follows from the one before. */
  ghost predicate Chain(w: World, trace: seq<Attempt>) {
    && (trace != [] ==> trace[0].via == ByTable && trace[0].served == Some(trace[0].to))
    && forall i {:trigger trace[i]} :: 0 < i < |trace| ==> Follows(w, trace[i - 1], trace[i])
  }

  /** A run may go on with an attempt at `n`. */
  ghost predicate Continues(w: World, trace: seq<Attempt>, n: Attempt) {
    if trace == [] then n.via == ByTable && n.served == Some(n.to) else Follows(w, trace[|trace| - 1], n)
  }

  lemma ChainSnoc(w: World, trace: seq<Attempt>, n: Attempt)
    requires Chain(w, trace) && Continues(w, trace, n)
    ensures Chain(w, trace + [n])
  {
    hide Follows;
    var all := trace + [n];
    forall i | 0 < i < |all|
      ensures Follows(w, all[i - 1], all[i])
    {
      assert i < |trace| ==> all[i] == trace[i] && all[i - 1] == trace[i - 1];
    }
  }

  ghost predicate EndsInRetry(trace: seq<Attempt>) {
    trace != [] && trace[|trace| - 1].answer.Some? && Retryable(trace[|trace| - 1].answer.value)
  }

  /** The nodes that commands went to, among everything sent. */
  ghost function Commands(log: seq<Message>): seq<Node> {
    if log == [] then []
    else Commands(log[..|log| - 1]) + if log[|log| - 1].CommandTo? then [log[|log| - 1].to] else []
  }

  ghost function Targets(trace: seq<Attempt>): seq<Node> {
    if trace == [] then [] else Targets(trace[..|trace| - 1]) + [trace[|trace| - 1].to]
  }

  lemma Logged(log: seq<Message>, m: Message)
    ensures Commands(log + [m]) == Commands(log) + if m.CommandTo? then [m.to] else []
  {
    assert (log + [m])[..|log|] == log;
  }

  /** An exchange sends one command, if any. */
  lemma ExchangeLogged(log: seq<Message>, to: Node, sent: bool, mapped: bool)
    ensures Commands(log + (if sent then [CommandTo(to)] else []) + if mapped then [SlotmapTo(to)] else [])
         == Commands(log) + if sent then [to] else []
  {
    hide Commands;
    var mid := log + if sent then [CommandTo(to)] else [];
    Logged(log, CommandTo(to));
    Logged(mid, SlotmapTo(to));
    assert log + [] == log && mid + [] == mid;
  }

  /** Refreshing sends no command. */
  lemma RefreshLogged(log: seq<Message>)
    ensures Commands(log + [Refresh]) == Commands(log) && Commands(log + [Refresh, Refresh]) == Commands(log)
  {
    hide Commands;
    Logged(log, Refresh);
    Logged(log + [Refresh], Refresh);
    assert log + [Refresh, Refresh] == (log + [Refresh]) + [Refresh];
  }

  /** The answer to an attempt does not matter to whether it may come next. */
  lemma AnswerFree(w: World, trace: seq<Attempt>, n: Attempt, answer: Option<Reply>)
    requires Continues(w, trace, n)
    ensures Continues(w, trace, n.(answer := answer))
  {
  }

  /** An attempt that may come next, with whatever answer, extends the run. */
  lemma Attempted(w: World, trace: seq<Attempt>, n: Attempt, answer: Option<Reply>)
    requires Chain(w, trace) && Continues(w, trace, n)
    ensures var all := trace + [n.(answer := answer)];
      && Chain(w, all) && all[|trace|].to == n.to && all[|trace|].answer == answer
      && (EndsInRetry(all) <==> answer.Some? && Retryable(answer.value))
      && Targets(all) == Targets(trace) + [n.to]
  {
    hide Chain, Follows, Retryable;
    AnswerFree(w, trace, n, answer);
    ChainSnoc(w, trace, n.(answer := answer));
    assert (trace + [n.(answer := answer)])[..|trace|] == trace;
  }

  class ClusterContext {
    const world: World
    const maxRetryCount: nat
    var clock: nat
    var table: Table
    var retryCount: nat
    var err: nat
    var needUpdateRoute: bool
    ghost var live: nat          // reply objects received and not freed
    ghost var log: seq<Message>  // everything sent, in order
    ghost var sent: seq<Attempt> // the transmissions of commands

    constructor (world: World, maxRetry: int)
      ensures retryCount == 0 && live == 0 && log == [] && sent == [] && maxRetryCount == if maxRetry > 0 then maxRetry else 5
    {
      this.world := world;
      maxRetryCount := if maxRetry > 0 then maxRetry else 5;
      clock, table, retryCount, err, needUpdateRoute, live := 0, map[], 0, 0, false, 0;
      log, sent := [], [];
    }

    function Served(slot: nat): Option<Node>
      reads this`table
    {
      if slot in table then Some(table[slot]) else None
    }

    /** The last thing sent was ASKING to a node. */
    ghost predicate Asked(node: Node)
      reads this`log
    {
      log != [] && log[|log| - 1] == AskingTo(node)
    }

    method NodeByTable(slot: nat) returns (node: Option<Node>)
      modifies this`err
      ensures node == Served(slot)
    {
      node := Served(slot);
      if node.None? {
        err := VALKEY_ERR_OTHER;
      }
    }

    /** valkeyClusterUpdateSlotmap: asks nodes in turn for the slot map; only a success changes the table. */
    method UpdateSlotmap() returns (ok: bool)
      modifies this`clock, this`table, this`err, this`needUpdateRoute, this`log
      ensures clock == old(clock) + 1 && log == old(log) + [Refresh]
      ensures ok == world.refresh(old(clock)).Ok?
      ensures if ok then err == 0 && table == world.refresh(old(clock)).value
              else table == old(table) && err == world.refresh(old(clock)).error
    {
      var now := clock;
      clock := clock + 1;
      log := log + [Refresh];
      match world.refresh(now)
      case Ok(t) =>
        table, err, needUpdateRoute := t, 0, false;
        return true;
      case Err(e) =>
        err := e;
        return false;
    }

    method GetContext(node: Node) returns (c: Contact)
      modifies this`clock, this`err
      ensures clock == old(clock) + 1 && c == world.contact(old(clock), node)
    {
      c := world.contact(clock, node);
      clock := clock + 1;
      if c.NoContext? {
        err := c.e;
      }
    }

    /** A connection to a redirect's node: its error becomes the client's error. */
    method Reach(node: Node) returns (ok: bool)
      modifies this`clock, this`err
      ensures clock == old(clock) + 1 && ok == world.contact(old(clock), node).Usable?
    {
      var c := GetContext(node);
      if c.Broken? {
        err := c.e;
      }
      ok := c.Usable?;
    }

    /** The label `retry`: finds the node that serves a slot, refreshing the table when it is unknown or unreachable. */
    method Route(slot: nat) returns (c: Option<Node>)
      modifies this`clock, this`table, this`err, this`needUpdateRoute, this`log
      ensures c.Some? ==> Served(slot) == c && clock > old(clock) && world.contact(clock - 1, c.value).Usable?
      ensures log == old(log) || log == old(log) + [Refresh] || log == old(log) + [Refresh, Refresh]
      ensures old(Served(slot)).Some? && world.contact(old(clock), old(Served(slot)).value).Usable? ==>
        c == old(Served(slot)) && log == old(log) && table == old(table)
      ensures Cooperative(world, slot) ==> c.Some?
    {
      c := NodeByTable(slot);
      if c.None? {
        c := RefreshedNode(slot);
        if c.None? {
          return;
        }
      }
      var contact := GetContext(c.value);
      if !contact.Usable? {
        c := RefreshedNode(slot);
        if c.None? {
          return;
        }
        var reached := Reach(c.value);
        if !reached {
          c := None;
        }
      }
    }

    /** The node that serves a slot after a refresh. */
    method RefreshedNode(slot: nat) returns (c: Option<Node>)
      modifies this`clock, this`table, this`err, this`needUpdateRoute, this`log
      ensures (c.Some? ==> Served(slot) == c) && log == old(log) + [Refresh] && clock > old(clock)
      ensures Cooperative(world, slot) ==> c.Some?
    {
      var ok := UpdateSlotmap();
      if !ok {
        return None;
      }
      c := NodeByTable(slot);
    }

    ghost method Free()
      requires live > 0
      modifies this`live
      ensures live == old(live) - 1
    {
      live := live - 1;
    }

    /**
     * The labels `moved_retry` and `ask_retry`: sends the command, and a
     * scheduled slot map request with it; reads the answer.
     */
    method Exchange(to: Node, ghost via: Via, ghost slot: nat, updating: bool)
      returns (transmitted: bool, reply: Option<Reply>, updates: bool)
      modifies this`clock, this`err, this`needUpdateRoute, this`live, this`log, this`sent
      ensures reply.Some? ==> transmitted
      ensures sent == old(sent) + if transmitted then [Attempt(to, via, Served(slot), old(Asked(to)), reply)] else []
      ensures log == old(log)
        + (if transmitted then [CommandTo(to)] else []) + if updates && !updating then [SlotmapTo(to)] else []
      ensures live == old(live) + if reply.Some? then 1 else 0
      ensures updates == (updating || (transmitted && old(needUpdateRoute) && world.routeSend(old(clock) + 1).Ok?))
      ensures transmitted && reply.None? ==> needUpdateRoute || err == VALKEY_ERR_OOM
      ensures !transmitted || reply.Some? ==> needUpdateRoute == old(needUpdateRoute)
      ensures Cooperative(world, slot) ==> reply.Some?
    {
      updates, reply := updating, None;
      var appended := world.append(clock);
      clock := clock + 1;
      if appended.Err? {
        err := appended.error;
        return false, None, updates;
      }
      transmitted := true;
      ghost var asked := Asked(to);
      log := log + [CommandTo(to)];
      if needUpdateRoute && !updates {
        updates := SendRoute(to);
      }
      reply := Receive();
      sent := sent + [Attempt(to, via, Served(slot), asked, reply)];
    }

    /** Reads a reply; a failure other than a lack of memory schedules a slot map request. */
    method Receive() returns (reply: Option<Reply>)
      modifies this`clock, this`err, this`needUpdateRoute, this`live
      ensures reply.Some? <==> world.answer(old(clock)).Ok?
      ensures live == old(live) + if reply.Some? then 1 else 0
      ensures if reply.Some? then needUpdateRoute == old(needUpdateRoute) else needUpdateRoute || err == VALKEY_ERR_OOM
    {
      var answer := world.answer(clock);
      clock := clock + 1;
      match answer
      case Err(e) =>
        err := e;
        if e != VALKEY_ERR_OOM {
          needUpdateRoute := true;
        }
        reply := None;
      case Ok(r) =>
        live := live + 1;
        reply := Some(r);
    }

    method SendRoute(to: Node) returns (ok: bool)
      modifies this`clock, this`err, this`log
      ensures clock == old(clock) + 1 && ok == world.routeSend(old(clock)).Ok?
      ensures log == old(log) + if ok then [SlotmapTo(to)] else []
    {
      var s := world.routeSend(clock);
      clock := clock + 1;
      if s.Err? {
        err := s.error;
      } else {
        log := log + [SlotmapTo(to)];
      }
      ok := s.Ok?;
    }

    /** MOVED: the slot's entry is changed at once; the whole table is refreshed later, or at once when that request cannot be sent. */
    method FollowMoved(from: Node, reply: Reply, updating: bool, ghost slot: nat) returns (c: Option<Node>, updates: bool)
      requires live > 0
      modifies this`clock, this`table, this`err, this`needUpdateRoute, this`live, this`log
      ensures live == old(live) - 1 && (updating ==> updates)
      ensures log == if updating || world.redirect(reply, from).Err? then old(log)
        else old(log) + [if updates then SlotmapTo(from) else Refresh]
      ensures Cooperative(world, slot) ==> c.Some?
      ensures c.Some? ==> world.redirect(reply, from).Ok? && c.value == world.redirect(reply, from).value.node
      ensures world.redirect(reply, from).Err? ==> table == old(table)
      ensures updates && world.redirect(reply, from).Ok? ==>
        var to := world.redirect(reply, from).value;
        table == if to.slot >= 0 then old(table)[to.slot := to.node] else old(table)
    {
      updates := updating;
      var to := world.redirect(reply, from);
      Free();
      if to.Err? {
        err := to.error;
        return None, updates;
      }
      if to.value.slot >= 0 {
        table := table[to.value.slot := to.value.node];
      }
      if !updates {
        updates := SendRoute(from);
        if !updates {
          var ok := UpdateSlotmap();
          if !ok {
            return None, updates;
          }
        }
      }
      var reached := Reach(to.value.node);
      c := if reached then Some(to.value.node) else None;
    }

    /** ASK: the next attempt goes to the named node, announced by ASKING; the table stays. */
    method FollowAsk(from: Node, reply: Reply, ghost slot: nat) returns (c: Option<Node>)
      requires live > 0
      modifies this`clock, this`err, this`live, this`log
      ensures live == old(live) - 1
      ensures c.Some? ==> log == old(log) + [AskingTo(c.value)]
      ensures log == old(log) || exists n: Node :: log == old(log) + [AskingTo(n)]
      ensures Cooperative(world, slot) ==> c.Some?
      ensures c.Some? ==> world.redirect(reply, from).Ok? && c.value == world.redirect(reply, from).value.node
    {
      var to := world.redirect(reply, from);
      Free();
      if to.Err? {
        err := to.error;
        return None;
      }
      var reached := Reach(to.value.node);
      if !reached {
        return None;
      }
      log := log + [AskingTo(to.value.node)];
      var asking := world.answer(clock);
      clock := clock + 1;
      if asking.Err? {
        err := asking.error;
        return None;
      }
      c := Some(to.value.node);
    }

    /** The switch over the cluster errors: where the command goes next, if it can. */
    method Follow(slot: nat, from: Node, reply: Reply, updating: bool, ghost trace: seq<Attempt>)
      returns (c: Option<Node>, via: Via, updates: bool)
      requires live > 0 && Retryable(reply)
      requires trace != [] && trace[|trace| - 1].to == from && trace[|trace| - 1].answer == Some(reply)
      modifies this`clock, this`table, this`err, this`needUpdateRoute, this`live, this`log
      ensures live == old(live) - 1 && old(log) <= log && Commands(log) == Commands(old(log))
      ensures c.Some? ==> Continues(world, trace, Attempt(c.value, via, Served(slot), Asked(c.value), None))
      ensures Cooperative(world, slot) ==> c.Some?
    {
      hide Commands;
      ghost var before := log;
      updates := updating;
      var e := GetReplyErrorType(reply);
      if e.MovedError? {
        c, updates := FollowMoved(from, reply, updating, slot);
        via := ByMoved;
        Logged(before, SlotmapTo(from));
        RefreshLogged(before);
      } else if e.AskError? {
        c := FollowAsk(from, reply, slot);
        via := ByAsk;
        if log != before {
          ghost var n: Node :| log == before + [AskingTo(n)];
          Logged(before, AskingTo(n));
        }
      } else {
        Free();
        c := Route(slot);
        via := ByTable;
        RefreshLogged(before);
      }
    }

    /** The label `done`: a pending slot map request is answered; if no refresh succeeds at all, the reply is given up. */
    method Finish(updating: bool, reply: Option<Reply>, ghost slot: nat) returns (r: Option<Reply>)
      requires reply.Some? ==> live > 0
      modifies this`clock, this`table, this`err, this`needUpdateRoute, this`live, this`log
      ensures Cooperative(world, slot) ==> r == reply && err == old(err)
      ensures r == reply || r.None?
      ensures if !updating || world.refresh(old(clock)).Ok? then err == old(err) && r == reply
              else if world.refresh(old(clock) + 1).Ok? then err == 0 && r == reply
              else r.None? && err == world.refresh(old(clock) + 1).error
      ensures live == old(live) - if reply.Some? && r.None? then 1 else 0
      ensures !updating ==> r == reply && table == old(table)
      ensures old(log) <= log && Commands(log) == Commands(old(log))
    {
      hide Commands;
      RefreshLogged(log);
      r := reply;
      if updating {
        var handled := world.refresh(clock);
        clock := clock + 1;
        if handled.Ok? {
          table, needUpdateRoute := handled.value, false;
        } else {
          err := 0;
          var ok := UpdateSlotmap();
          if !ok {
            if r.Some? {
              Free();
            }
            r := None;
          }
        }
      }
    }

    /** One attempt at a command in the run so far. */
    method Transmit(to: Node, ghost via: Via, ghost slot: nat, updating: bool, ghost trace: seq<Attempt>)
      returns (transmitted: bool, reply: Option<Reply>, updates: bool, ghost all: seq<Attempt>)
      requires Chain(world, trace) && Continues(world, trace, Attempt(to, via, Served(slot), Asked(to), None))
      modifies this`clock, this`err, this`needUpdateRoute, this`live, this`log, this`sent
      ensures Chain(world, all) && trace <= all && |all| == |trace| + if transmitted then 1 else 0
      ensures !transmitted ==> all == trace
      ensures transmitted ==>
        && all[|trace|].to == to && all[|trace|].answer == reply
        && (EndsInRetry(all) <==> reply.Some? && Retryable(reply.value))
      ensures sent == old(sent) + all[|trace|..]
      ensures old(log) <= log && Commands(log) == Commands(old(log)) + (if transmitted then [to] else [])
      ensures Targets(all) == Targets(trace) + if transmitted then [to] else []
      ensures live == old(live) + (if reply.Some? then 1 else 0) && (reply.Some? ==> transmitted)
      ensures Cooperative(world, slot) ==> reply.Some?
    {
      hide Chain, Continues, Follows, Retryable, Cooperative, EndsInRetry, Commands, Targets;
      all := trace;
      ghost var before := log;
      ghost var next := Attempt(to, via, Served(slot), Asked(to), None);
      transmitted, reply, updates := Exchange(to, via, slot, updating);
      ExchangeLogged(before, to, transmitted, updates && !updating);
      if transmitted {
        Attempted(world, trace, next, reply);
        all := trace + [next.(answer := reply)];
      }
    }

    /** The loop over the attempts, from the node that serves the slot on. */
    method Attempts(slot: nat, start: Option<Node>) returns (reply: Option<Reply>, updating: bool, ghost trace: seq<Attempt>)
      requires retryCount <= maxRetryCount && (start.Some? ==> Served(slot) == start)
      requires Cooperative(world, slot) ==> start.Some?
      modifies this
      ensures sent == old(sent) + trace && |trace| <= maxRetryCount - old(retryCount) + 1 && Chain(world, trace)
      ensures old(log) <= log && Commands(log) == Commands(old(log)) + Targets(trace)
      ensures reply.Some? ==> trace != [] && trace[|trace| - 1].answer == reply && !Retryable(reply.value)
      ensures Cooperative(world, slot) ==>
        reply.Some? || (|trace| == maxRetryCount - old(retryCount) + 1 && EndsInRetry(trace) && err == VALKEY_ERR_CLUSTER_TOO_MANY_RETRIES)
      ensures retryCount == old(retryCount) + if trace == [] || EndsInRetry(trace) then |trace| else |trace| - 1
      ensures live == old(live) + if reply.Some? then 1 else 0
    {
      hide Chain, Continues, Follows, Retryable, Cooperative, EndsInRetry, Commands, Targets;
      reply, trace := None, [];
      updating := false;
      var c, via := start, ByTable;
      NoAttempt(world, c, Served(slot), c.Some? && Asked(c.value));
      while c.Some?
        invariant Chain(world, trace) && (trace == [] || EndsInRetry(trace))
        invariant retryCount == old(retryCount) + |trace| && retryCount <= maxRetryCount
        invariant reply.None? && live == old(live) && sent == old(sent) + trace
        invariant old(log) <= log && Commands(log) == Commands(old(log)) + Targets(trace)
        invariant c.Some? ==> Continues(world, trace, Attempt(c.value, via, Served(slot), Asked(c.value), None))
        invariant Cooperative(world, slot) ==> c.Some?
        decreases maxRetryCount - retryCount, c
      {
        var transmitted;
        transmitted, reply, updating, trace := Transmit(c.value, via, slot, updating, trace);
        if !transmitted || reply.None? || !Retryable(reply.value) {
          break;
        }
        retryCount := retryCount + 1;
        if retryCount > maxRetryCount {
          err := VALKEY_ERR_CLUSTER_TOO_MANY_RETRIES;
          Free();
          reply := None;
          break;
        }
        c, via, updating := Follow(slot, c.value, reply.value, updating, trace);
        reply := None;
      }
    }

    /**
     * valkey_cluster_command_execute. Whatever the world answers, the command
     * is sent a bounded number of times, each time where the last answer asks;
     * only a final answer is returned, and every other reply is freed once.
     */
    method Execute(slot: nat) returns (reply: Option<Reply>, ghost trace: seq<Attempt>)
      requires retryCount <= maxRetryCount
      modifies this
      ensures sent == old(sent) + trace && |trace| <= maxRetryCount - old(retryCount) + 1 && Chain(world, trace)
      ensures old(log) <= log && Commands(log) == Commands(old(log)) + Targets(trace)
      ensures reply.Some? ==> trace != [] && trace[|trace| - 1].answer == reply && !Retryable(reply.value)
      ensures Cooperative(world, slot) ==>
        reply.Some? || (|trace| == maxRetryCount - old(retryCount) + 1 && EndsInRetry(trace) && err == VALKEY_ERR_CLUSTER_TOO_MANY_RETRIES)
      ensures retryCount == old(retryCount) + if trace == [] || EndsInRetry(trace) then |trace| else |trace| - 1
      ensures live == old(live) + if reply.Some? then 1 else 0
    {
      hide Chain, Continues, Follows, Retryable, Cooperative, EndsInRetry, Commands, Targets;
      RefreshLogged(log);
      var c := Route(slot);
      var updating;
      reply, updating, trace := Attempts(slot, c);
      reply := Finish(updating, reply, slot);
    }

    /** valkeyClusterFormattedCommand for a command whose slot is known: the retry counter is reset afterwards. */
    method FormattedCommand(slot: nat) returns (reply: Option<Reply>, ghost trace: seq<Attempt>)
      requires retryCount <= maxRetryCount
      modifies this
      ensures retryCount == 0 && sent == old(sent) + trace
      ensures old(log) <= log && Commands(log) == Commands(old(log)) + Targets(trace)
      ensures |trace| <= maxRetryCount - old(retryCount) + 1 && Chain(world, trace)
      ensures reply.Some? ==> trace != [] && trace[|trace| - 1].answer == reply && !Retryable(reply.value)
      ensures Cooperative(world, slot) ==>
        reply.Some? || (|trace| == maxRetryCount - old(retryCount) + 1 && EndsInRetry(trace) && err == VALKEY_ERR_CLUSTER_TOO_MANY_RETRIES)
      ensures live == old(live) + if reply.Some? then 1 else 0
    {
      err := 0;
      reply, trace := Execute(slot);
      retryCount := 0;
    }
  }

  lemma NoAttempt(w: World, c: Option<Node>, served: Option<Node>, asked: bool)
    requires c.Some? ==> served == c
    ensures Chain(w, []) && !EndsInRetry([]) && Targets([]) == []
    ensures c.Some? ==> Continues(w, [], Attempt(c.value, ByTable, served, asked, None))
  {
  }

  /**
   * Many commands in a row on one context, each within its own bound: the
   * number of transmissions is bounded, and the caller owns exactly the
   * replies returned. In a world that refuses nothing every command is sent.
   */
  method RunCommands(cc: ClusterContext, slots: seq<nat>) returns (replies: seq<Option<Reply>>)
    requires cc.retryCount == 0
    modifies cc
    ensures |replies| == |slots| && old(cc.sent) <= cc.sent && old(cc.log) <= cc.log
    ensures Commands(cc.log) == Commands(old(cc.log)) + Targets(cc.sent[|old(cc.sent)|..])
    ensures |cc.sent| <= |old(cc.sent)| + |slots| * (cc.maxRetryCount + 1)
    ensures (forall slot :: slot in slots ==> Cooperative(cc.world, slot)) ==> |cc.sent| >= |old(cc.sent)| + |slots|
    ensures forall i :: 0 <= i < |replies| && replies[i].Some? ==> !Retryable(replies[i].value)
    ensures cc.live == old(cc.live) + Returned(replies)
  {
    hide Chain, Retryable, Cooperative, Commands, Targets, EndsInRetry;
    replies := [];
    NoTargets(cc.sent);
    ghost var most := cc.maxRetryCount + 1;
    for i := 0 to |slots|
      invariant cc.retryCount == 0 && |replies| == i && old(cc.sent) <= cc.sent
      invariant old(cc.log) <= cc.log && Commands(cc.log) == Commands(old(cc.log)) + Targets(cc.sent[|old(cc.sent)|..])
      invariant |cc.sent| <= |old(cc.sent)| + i * most
      invariant (forall slot :: slot in slots ==> Cooperative(cc.world, slot)) ==> |cc.sent| >= |old(cc.sent)| + i
      invariant forall k :: 0 <= k < i && replies[k].Some? ==> !Retryable(replies[k].value)
      invariant cc.live == old(cc.live) + Returned(replies)
    {
      var reply; ghost var trace;
      ghost var before := cc.sent[|old(cc.sent)|..];
      reply, trace := cc.FormattedCommand(slots[i]);
      assert cc.sent[|old(cc.sent)|..] == before + trace;
      TargetsConcat(before, trace);
      assert (replies + [reply])[..i] == replies && slots[i] in slots;
      replies := replies + [reply];
      OneMore(i, most);
    }
  }

  lemma NoTargets(sent: seq<Attempt>)
    ensures Targets(sent[|sent|..]) == []
  {
  }

  lemma {:induction false} TargetsConcat(s: seq<Attempt>, t: seq<Attempt>)
    ensures Targets(s + t) == Targets(s) + Targets(t)
  {
    if t == [] {
      assert s + t == s;
    } else {
      TargetsConcat(s, t[..|t| - 1]);
      assert (s + t)[..|s + t| - 1] == s + t[..|t| - 1];
    }
  }

  lemma OneMore(i: nat, most: nat)
    ensures (i + 1) * most == i * most + most
  {
  }

  /** The number of commands that were answered. */
  ghost function Returned(replies: seq<Option<Reply>>): nat {
    if replies == [] then 0 else Returned(replies[..|replies| - 1]) + if replies[|replies| - 1].Some? then 1 else 0
  }
}
