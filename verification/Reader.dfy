/** The resumable reply reader of src/read.c: a task stack and a compacted buffer, fed in
    arbitrary chunks, proved to compute the recursive grammar of module Resp. */
module Reader {
  import opened Bytes
  import opened Decimal
  import opened Resp
  import opened Continuation
  import opened ReplyHeap

  const STACK_SIZE: nat := 9

  const UNREAD: Task := Task(None, -1, -1, None)

  /** Position of the first byte b in s[from..to]. */
  method Memchr(s: seq<Byte>, b: Byte, from: nat, to: nat) returns (r: Option<nat>)
    requires from <= to <= |s|
    ensures r.Some? ==> from <= r.value < to && s[r.value] == b && b !in s[from..r.value]
    ensures r.None? ==> b !in s[from..to]
  {
    var i := from;
    while i < to
      invariant from <= i <= to && b !in s[from..i]
    {
      if s[i] == b {
        return Some(i);
      }
      i := i + 1;
    }
    r := None;
  }

  /** Position of the first CRLF of s, searched for by its carriage return. */
  method SeekNewline(s: seq<Byte>) returns (r: Option<nat>)
    ensures r == FirstCrlf(s)
  {
    if |s| < 2 {
      return None;
    }
    var len := |s| - 1;
    var at := 0;
    r := Memchr(s, CR, at, len);
    while r.Some? && s[r.value + 1] != LF
      invariant 0 <= at <= len && forall j :: 0 <= j < at ==> !CrlfAt(s, j)
      invariant r.Some? ==> at <= r.value < len && s[r.value] == CR && CR !in s[at..r.value]
      invariant r.None? ==> CR !in s[at..len]
      decreases r.Some?, len - at
    {
      assert forall j :: at <= j < r.value ==> s[j] in s[at..r.value];
      at := r.value + 1;
      r := Memchr(s, CR, at, len);
    }
    if r.Some? {
      assert forall j :: at <= j < r.value ==> s[j] in s[at..r.value];
      CrlfUnique(s, r.value);
    } else {
      assert forall j :: at <= j < len ==> s[j] in s[at..len];
    }
  }

  method CheckBignum(s: seq<Byte>) returns (ok: bool)
    ensures ok == IsBignum(s)
  {
    var i := 0;
    while i < |s|
      invariant 0 <= i <= |s|
      invariant forall j :: 0 <= j < i ==> IsDigit(s[j]) || (j == 0 && s[j] == MINUS)
    {
      if !(i == 0 && s[0] == MINUS) && (s[i] < ZERO || s[i] > ZERO + 9) {
        return false;
      }
      i := i + 1;
    }
    ok := true;
  }

  method CheckSimple(s: seq<Byte>) returns (ok: bool)
    ensures ok == IsSimple(s)
  {
    var i := 0;
    while i < |s|
      invariant 0 <= i <= |s| && CR !in s[..i] && LF !in s[..i]
    {
      if s[i] == CR || s[i] == LF {
        return false;
      }
      i := i + 1;
    }
    assert s[..i] == s;
    ok := true;
  }

  class Reader {
    const lim: Limits
    var err: Option<Fault>
    var buf: seq<Byte>
    var pos: nat
    var len: nat
    var task: seq<Task>
    var ridx: int
    var reply: Option<nat>
    var objs: seq<Obj>

    /** Bytes of the current reply consumed so far, and the parse state they have led to. */
    ghost var taken: seq<Byte>
    ghost var st: State

    ghost predicate Valid()
      reads this
    {
      && pos <= len == |buf| && 0 < |task|
      && (err.Some? ==> ridx == -1 && buf == [] && reply == None)
      && (err.None? ==> Reaches(lim, taken, st) && (Idle() || Holds(st, ridx, task, objs, reply)))
    }

    /** Between two replies. */
    ghost predicate Idle()
      reads this
    {
      ridx == -1 && st == START && taken == [] && reply == None
    }

    /** All bytes from the start of the current reply on. */
    ghost function Pending(): seq<Byte>
      requires pos <= |buf|
      reads this
    {
      taken + buf[pos..]
    }

    constructor (lim: Limits)
      ensures Valid() && this.lim == lim && err == None && Pending() == []
      ensures st == START
    {
      this.lim := lim;
      err, buf, pos, len := None, [], 0, 0;
      task := seq(STACK_SIZE, _ => UNREAD);
      ridx, reply, objs := -1, None, [];
      taken, st := [], START;
      LeadsFromStart(lim);
    }

    method SetError(f: Fault)
      modifies this`err, this`buf, this`pos, this`len, this`ridx, this`reply
      ensures err == Some(f) && buf == [] && pos == 0 && len == 0 && ridx == -1 && reply == None
    {
      err, buf, pos, len, ridx, reply := Some(f), [], 0, 0, -1, None;
    }

    /** One of the create functions: allocate, and link into the parent's next cell, which must
        exist and never have been written. */
    method Create(o: Obj) returns (id: nat)
      requires 0 <= ridx < |task|
      requires ridx > 0 ==>
        && task[ridx - 1].obj.Some? && task[ridx - 1].obj.value < |objs| && objs[task[ridx - 1].obj.value].Node?
        && 0 <= task[ridx].idx < |objs[task[ridx - 1].obj.value].element|
        && objs[task[ridx - 1].obj.value].element[task[ridx].idx] == None
      modifies this`objs
      ensures id == |old(objs)|
      ensures objs == Allocate(old(objs), if ridx > 0 then task[ridx - 1].obj else None, task[ridx].idx, o)
    {
      id := |objs|;
      if ridx > 0 {
        var p := task[ridx - 1].obj.value;
        objs := objs[p := objs[p].(element := objs[p].element[task[ridx].idx := Some(id)])];
      }
      objs := objs + [o];
    }

    /** Leave every aggregate that object `id`, the finished item v, completes. */
    method MoveToNextTask(ghost stack: seq<Frame>, ghost id: nat, ghost v: Reply)
      requires 0 <= ridx < |task| && Filled(objs, task, ridx, id, stack, v)
      modifies this`ridx, this`task
      ensures |task| == |old(task)|
      ensures match Next(stack, v)
              case Open(stack', cur) =>
                && 0 < ridx < |task| && cur == None && task[ridx].kind == None
                && Spine(objs, task, ridx, None, stack') && task[0].obj == old(task[0].obj)
              case Complete(v') =>
                && ridx == -1
                && var root := if old(ridx) == 0 then Some(id) else old(task[0].obj);
                && root.Some? && Shows(objs, root.value, |objs|, root.value, v')
    {
      ghost var ts, open, cid, cv := task, stack, id, v;
      while ridx >= 0
        invariant 0 <= ridx <= old(ridx) && task == ts
        invariant Filled(objs, ts, ridx, cid, open, cv) && Next(open, cv) == Next(stack, v)
        invariant ridx == 0 ==> Some(cid) == if old(ridx) == 0 then Some(id) else old(task[0].obj)
      {
        if ridx == 0 {
          ridx := ridx - 1;
          return;
        }
        if task[ridx].idx == task[ridx - 1].elements - 1 {
          SpineClose(objs, ts, ridx, cid, open, cv);
          cv := AggReply(open[ridx - 1].kind, open[ridx - 1].done + [cv]);
          cid, open := task[ridx - 1].obj.value, open[..ridx - 1];
          ridx := ridx - 1;
        } else {
          task := task[ridx := task[ridx].(kind := None, elements := -1, idx := task[ridx].idx + 1)];
          SpineAdvance(objs, ts, ridx, cid, open, cv, task);
          return;
        }
      }
    }

    /** Create the object of a finished item v, make it the reply if it is the root, move on. */
    method Place(o: Obj, ghost v: Reply, ghost stack: seq<Frame>, ghost cur: Option<Kind>)
      requires Holds(Open(stack, cur), ridx, task, objs, reply)
      requires (o == Leaf(v) && !v.AggReply?) || exists k :: o == Node(k, []) && v == AggReply(k, [])
      modifies this`ridx, this`objs, this`reply, this`task
      ensures Holds(Next(stack, v), ridx, task, objs, reply) && |task| == |old(task)|
    {
      SpineAllocate(objs, task, ridx, stack, o);
      NextRunning(stack, v);
      var id := Create(o);
      assert Shows(objs, id, |objs|, id, v) by { assert objs[id] == objs[id..][0]; }
      if ridx == 0 {
        reply := Some(id);
      }
      MoveToNextTask(stack, id, v);
    }

    /** The finished item v took the bytes w. */
    method Deliver(o: Obj, ghost v: Reply, ghost w: seq<Byte>, ghost rest: seq<Byte>)
      requires Valid() && err.None? && st.Open? && Holds(st, ridx, task, objs, reply)
      requires (o == Leaf(v) && !v.AggReply?) || exists k :: o == Node(k, []) && v == AggReply(k, [])
      requires Step(lim, st, w, Next(st.stack, v)) && rest == w + buf[pos..]
      modifies this`ridx, this`objs, this`reply, this`taken, this`st, this`task
      ensures Valid() && Pending() == old(taken) + rest && taken == old(taken) + w
    {
      LeadsOn(lim, taken, st, w, Next(st.stack, v));
      Regroup(taken, w, buf[pos..]);
      Place(o, v, st.stack, st.cur);
      taken, st := taken + w, Next(st.stack, v);
    }

    method LineItemValue(kind: Kind, line: seq<Byte>) returns (r: Result<Reply, Fault>)
      ensures r == LineValue(lim, kind, line)
    {
      match kind {
        case Int =>
          var v := String2ll(line);
          r := if v.None? then Err(BadInteger) else Ok(IntReply(v.value));
        case Double =>
          var d := ParseDouble(lim, line);
          r := if d.None? then Err(BadDouble) else Ok(DoubleReply(d.value, line));
        case Nil =>
          r := if |line| != 0 then Err(BadNil) else Ok(NilReply);
        case Bool =>
          r := if !IsBoolText(line) then Err(BadBool) else Ok(BoolReply(line[0] == 116 || line[0] == 84));
        case Bignum =>
          var ok := CheckBignum(line);
          r := if !ok then Err(BadBignum) else Ok(TextReply(kind, line));
        case _ =>
          var ok := CheckSimple(line);
          r := if !ok then Err(BadSimple) else Ok(TextReply(kind, line));
      }
    }

    /** What processing one item may do, given the unread bytes and state before it. */
    ghost predicate Processed(ok: bool, pending0: seq<Byte>, pos0: nat, st0: State, rest0: seq<Byte>)
      reads this
    {
      && Valid()
      && (ok ==> err.None? && pos > pos0 && taken != [])
      && (err.None? ==> Pending() == pending0 && (!ok ==> ridx >= 0 && Sem(lim, st, buf[pos..]).More?))
      && (err.Some? ==> !ok && Sem(lim, st0, rest0) == Bad(err.value))
    }

    /** The line item at the start of the unread bytes, once its CRLF has arrived. */
    method LoadLine(kind: Kind, rest: seq<Byte>) returns (p: Parse<Reply>)
      ensures p == ParseLine(lim, kind, rest)
    {
      var s := SeekNewline(rest);
      if s.None? {
        return More;
      }
      var v := LineItemValue(kind, rest[..s.value]);
      p := if v.Err? then Bad(v.error) else Done(v.value, s.value + 2);
    }

    /** The bulk item at the start of the unread bytes, once the whole of it has arrived. */
    method LoadBulk(kind: Kind, rest: seq<Byte>) returns (p: Parse<Reply>)
      ensures p == ParseBulk(kind, rest)
    {
      var s := SeekNewline(rest);
      if s.None? {
        return More;
      }
      var bytelen := s.value + 2;
      var n := String2ll(rest[..s.value]);
      if n.None? {
        return Bad(BadBulkLength);
      }
      if n.value < -1 {
        return Bad(BulkOutOfRange);
      }
      if n.value == -1 {
        return Done(NilReply, bytelen);
      }
      bytelen := bytelen + n.value + 2;
      if bytelen > |rest| {
        return More;
      }
      var body := rest[s.value + 2..s.value + 2 + n.value];
      if kind.Verb? && (n.value < 4 || body[3] != 58) {
        return Bad(BadVerbatim);
      }
      p := Done(BulkValue(kind, body), bytelen);
    }

    /** The next bytelen unread bytes are the finished item v. */
    method Take(v: Reply, bytelen: nat)
      requires Valid() && err.None? && ridx >= 0
      requires st.cur.Some? && !st.cur.value.IsAggregate() && !v.AggReply?
      requires ParseTyped(lim, st.cur.value, buf[pos..]) == Done(v, bytelen)
      modifies this
      ensures Valid() && err.None? && buf == old(buf) && pos > old(pos) && Pending() == old(Pending()) && taken != []
    {
      hide ParseTyped, Sem, Reaches, Spine, Level, Shows, ParseSeq, ParseReply;
      ghost var rest := buf[pos..];
      LeafStep(lim, st.stack, st.cur.value, rest, v, bytelen);
      pos := pos + bytelen;
      ghost var w := rest[..bytelen];
      assert rest == w + buf[pos..];
      Deliver(Leaf(v), v, w, rest);
    }

    method ProcessLineItem() returns (ok: bool)
      requires Valid() && err.None? && ridx >= 0
      requires st.cur.Some? && !st.cur.value.IsAggregate() && !st.cur.value.IsBulk()
      modifies this
      ensures Processed(ok, old(Pending()), old(pos), old(st), old(buf[pos..]))
      ensures ok ==> buf == old(buf)
    {
      var p := LoadLine(task[ridx].kind.value, buf[pos..]);
      LeafVerdict(lim, st, buf[pos..], p);
      match p {
        case More => return false;
        case Bad(f) => SetError(f); return false;
        case Done(obj, bytelen) => Take(obj, bytelen); ok := true;
      }
    }

    method ProcessBulkItem() returns (ok: bool)
      requires Valid() && err.None? && ridx >= 0
      requires st.cur.Some? && st.cur.value.IsBulk()
      modifies this
      ensures Processed(ok, old(Pending()), old(pos), old(st), old(buf[pos..]))
      ensures ok ==> buf == old(buf)
    {
      var p := LoadBulk(task[ridx].kind.value, buf[pos..]);
      LeafVerdict(lim, st, buf[pos..], p);
      match p {
        case More => return false;
        case Bad(f) => SetError(f); return false;
        case Done(obj, bytelen) => Take(obj, bytelen); ok := true;
      }
    }

    method Grow()
      requires Valid() && err.None?
      modifies this`task
      ensures |task| == |old(task)| + STACK_SIZE && Valid()
    {
      task := task + seq(STACK_SIZE, _ => UNREAD);
      if !Idle() && st.Open? {
        SpineLonger(objs, old(task), task, ridx, None, st.stack);
      }
    }

    method Announced(kind: Kind, line: seq<Byte>) returns (r: Result<Option<nat>, Fault>)
      ensures r == HeaderValue(lim, kind, line)
    {
      var elements := String2ll(line);
      if elements.None? {
        return Err(BadMultiLength);
      }
      var n := elements.value;
      if n < -1 || (lim.maxElements > 0 && n > lim.maxElements) {
        return Err(MultiOutOfRange);
      }
      if n == -1 {
        return Ok(None);
      }
      if kind.IsPaired() {
        if n > LLONG_MAX / 2 {
          return Err(MultiOutOfRange);
        }
        n := n * 2;
      }
      r := Ok(Some(n));
    }

    method LoadHeader(kind: Kind, rest: seq<Byte>) returns (p: Parse<Option<nat>>)
      ensures p == ParseHeader(lim, kind, rest)
    {
      var s := SeekNewline(rest);
      if s.None? {
        return More;
      }
      var n := Announced(kind, rest[..s.value]);
      p := if n.Err? then Bad(n.error) else Done(n.value, s.value + 2);
    }

    method ProcessAggregateItem() returns (ok: bool)
      requires Valid() && err.None? && ridx >= 0
      requires st.cur.Some? && st.cur.value.IsAggregate()
      modifies this
      ensures Processed(ok, old(Pending()), old(pos), old(st), old(buf[pos..]))
      ensures ok ==> buf == old(buf)
    {
      if ridx == |task| - 1 {
        Grow();
      }
      var kind := task[ridx].kind.value;
      var p := LoadHeader(kind, buf[pos..]);
      HeaderVerdict(lim, st, buf[pos..], p);
      match p {
        case More => return false;
        case Bad(f) => SetError(f); return false;
        case Done(n, bytelen) => TakeHeader(kind, n, bytelen); ok := true;
      }
    }

    /** The next bytelen unread bytes announce an aggregate of n elements, or a nil one. */
    method TakeHeader(kind: Kind, n: Option<nat>, bytelen: nat)
      requires Valid() && err.None? && 0 <= ridx < |task| - 1
      requires st.cur == Some(kind) && kind.IsAggregate()
      requires ParseHeader(lim, kind, buf[pos..]) == Done(n, bytelen)
      modifies this
      ensures Valid() && err.None? && buf == old(buf) && pos > old(pos) && Pending() == old(Pending()) && taken != []
    {
      hide ParseHeader, Sem, Reaches, Spine, Level, Shows, ParseSeq, ParseReply;
      ghost var rest := buf[pos..];
      HeaderStep(lim, st.stack, kind, rest, n, bytelen);
      pos := pos + bytelen;
      ghost var w := rest[..bytelen];
      assert rest == w + buf[pos..];
      if n.None? {
        Deliver(Leaf(NilReply), NilReply, w, rest);
      } else if n.value > 0 {
        OpenAggregate(kind, n.value, w, rest);
      } else {
        Deliver(Node(kind, []), AggReply(kind, []), w, rest);
      }
    }

    /** Create an aggregate with n empty cells and start on the first. */
    method PlaceOpen(kind: Kind, n: nat, ghost stack: seq<Frame>, ghost cur: Option<Kind>)
      requires Holds(Open(stack, cur), ridx, task, objs, reply) && ridx < |task| - 1
      requires kind.IsAggregate() && n > 0
      modifies this`ridx, this`objs, this`reply, this`task
      ensures Holds(Announce(stack, kind, Some(n)), ridx, task, objs, reply) && |task| == |old(task)|
    {
      hide Shows;
      var o := Node(kind, seq(n, _ => None));
      ghost var ts, top := task, ridx;
      SpineAllocate(objs, ts, ridx, stack, o);
      var id := Create(o);
      assert objs[id] == o by { assert objs[id] == objs[id..][0]; }
      if ridx == 0 {
        reply := Some(id);
      }
      task := task[ridx := task[ridx].(kind := Some(kind), elements := n, obj := Some(id))];
      ridx := ridx + 1;
      task := task[ridx := Task(None, -1, 0, None)];
      SpineOpen(objs, ts, top, id, stack, Frame(kind, n, []), task);
    }

    method OpenAggregate(kind: Kind, n: nat, ghost w: seq<Byte>, ghost rest: seq<Byte>)
      requires Valid() && err.None? && st.Open? && Holds(st, ridx, task, objs, reply) && ridx < |task| - 1
      requires kind.IsAggregate() && n > 0 && Step(lim, st, w, Announce(st.stack, kind, Some(n)))
      requires rest == w + buf[pos..]
      modifies this`ridx, this`objs, this`reply, this`taken, this`st, this`task
      ensures Valid() && Pending() == old(taken) + rest && taken == old(taken) + w
    {
      LeadsOn(lim, taken, st, w, Announce(st.stack, kind, Some(n)));
      Regroup(taken, w, buf[pos..]);
      PlaceOpen(kind, n, st.stack, st.cur);
      taken, st := taken + w, Announce(st.stack, kind, Some(n));
    }

    method ProcessItem() returns (ok: bool)
      requires Valid() && err.None? && ridx >= 0
      modifies this
      ensures Processed(ok, old(Pending()), old(pos), old(st), old(buf[pos..]))
      ensures ok ==> buf == old(buf)
    {
      ghost var pending, st0, rest := Pending(), st, buf[pos..];
      if task[ridx].kind.None? {
        if len - pos < 1 {
          return false;
        }
        var kind := KindOf(buf[pos]);
        if kind.None? {
          SetError(BadTypeByte(buf[pos]));
          return false;
        }
        TypeByte(kind.value);
      }
      var kind := task[ridx].kind.value;
      if kind.IsBulk() {
        ok := ProcessBulkItem();
      } else if kind.IsAggregate() {
        ok := ProcessAggregateItem();
      } else {
        ok := ProcessLineItem();
      }
    }

    method TypeByte(kind: Kind)
      requires Valid() && err.None? && ridx >= 0 && st.cur.None?
      requires pos < len && KindOf(buf[pos]) == Some(kind)
      modifies this
      ensures Valid() && err.None? && ridx == old(ridx) && buf == old(buf) && pos == old(pos) + 1 && Pending() == old(Pending())
      ensures st == Open(old(st).stack, Some(kind))
      ensures Sem(lim, old(st), old(buf[pos..])) == Shift(1, Sem(lim, st, buf[pos..]))
    {
      ghost var rest, w := buf[pos..], [buf[pos]];
      TypeByteStep(lim, st.stack, buf[pos]);
      LeadsOn(lim, taken, st, w, Open(st.stack, Some(kind)));
      task := task[ridx := task[ridx].(kind := Some(kind))];
      pos := pos + 1;
      assert rest == w + buf[pos..];
      assert Steps(lim, st, w, Open(st.stack, Some(kind)), buf[pos..]);
      Regroup(taken, w, buf[pos..]);
      SpineTop(objs, old(task), task, ridx, st.stack);
      taken, st := taken + w, Open(st.stack, Some(kind));
    }

    /** What holds between two calls of the public functions. */
    ghost predicate Ready()
      reads this
    {
      Valid() && (err.None? ==> st.Open?)
    }

    /** Drop the consumed bytes from the front of the buffer. */
    method GetReadBuf() returns (ok: bool)
      requires Ready()
      modifies this`buf, this`pos, this`len
      ensures Ready() && ok == err.None? && (ok ==> pos == 0 && Pending() == old(Pending()))
    {
      if err.Some? {
        return false;
      }
      if pos > 0 {
        var rest := SdsRange(buf, pos, -1);
        assert rest == buf[pos..];
        assert rest[0..] == rest;
        buf, pos := rest, 0;
        len := |buf|;
      }
      ok := true;
    }

    /** Append the bytes the caller put into the free space of the buffer. */
    method CommitRead(bytes: seq<Byte>)
      requires Ready() && err.None? && pos == 0
      modifies this`buf, this`len
      ensures Ready() && Pending() == old(Pending()) + bytes
    {
      Regroup(taken, buf, bytes);
      assert buf[pos..] == buf && (buf + bytes)[pos..] == buf + bytes;
      buf := buf + bytes;
      len := |buf|;
    }

    method Feed(bytes: seq<Byte>) returns (ok: bool)
      requires Ready()
      modifies this`buf, this`pos, this`len
      ensures Ready() && ok == err.None? && (ok ==> Pending() == old(Pending()) + bytes)
    {
      if err.Some? {
        return false;
      }
      if |bytes| >= 1 {
        ok := GetReadBuf();
        CommitRead(bytes);
      } else {
        ok := true;
      }
    }

    /** The verdict on what has been fed is the grammar's verdict; a finished reply is handed
        over as an object whose tree is the grammar's reply. */
    method GetReply() returns (ok: bool, r: Option<nat>)
      requires Ready()
      modifies this
      ensures Ready()
      ensures old(err).Some? ==> !ok && r.None? && err == old(err)
      ensures old(err).None? ==>
        match ParseReply(lim, old(Pending()))
        case More => ok && r.None? && err.None? && Pending() == old(Pending())
        case Bad(f) => !ok && r.None? && err == Some(f)
        case Done(v, k) => ok && r.Some? && err.None? && Tree(objs, r.value) == v && Pending() == old(Pending())[k..]
    {
      if err.Some? {
        return false, None;
      }
      if len == 0 {
        AtEnd(lim, st);
        assert Leads(lim, taken, st, buf[pos..]);
        return true, None;
      }
      if ridx == -1 {
        task := task[0 := UNREAD];
        ridx := 0;
      }
      ok := true;
      while ridx >= 0
        invariant ok && Valid() && err.None? && Pending() == old(Pending()) && (ridx == -1 ==> taken != [])
        decreases len - pos
      {
        ghost var taken0, st0, rest := taken, st, buf[pos..];
        ok := ProcessItem();
        if !ok {
          assert Leads(lim, taken0, st0, rest);
          assert err.None? ==> Leads(lim, taken, st, buf[pos..]);
          break;
        }
      }
      if err.Some? {
        return false, None;
      }
      if ridx == -1 {
        r := Emit();
      } else {
        r := None;
      }
      ok := true;
    }

    method Emit() returns (r: Option<nat>)
      requires Valid() && err.None? && st.Complete?
      modifies this`reply, this`taken, this`st
      ensures Ready() && r.Some?
      ensures var p := ParseReply(lim, old(Pending()));
              p.Done? && Tree(objs, r.value) == p.value && Pending() == old(Pending())[p.used..]
    {
      ShowsTree(objs, reply.value, |objs|, reply.value, st.v);
      assert Leads(lim, taken, st, buf[pos..]);
      r := reply;
      reply := None;
      assert Pending()[|taken|..] == buf[pos..];
      taken, st := [], START;
      LeadsFromStart(lim);
      assert Pending() == buf[pos..];
    }
  }

  /** The position an index means: negative ones count from the end, but not beyond the start. */
  function Position(index: int, length: nat): nat {
    if index >= 0 then index else if length + index >= 0 then length + index else 0
  }

  /** `sdsrange`: the elements from one position to another, both included, as far as they exist. */
  method SdsRange<T>(s: seq<T>, first: int, last: int) returns (r: seq<T>)
    ensures var lo, hi := Position(first, |s|), Position(last, |s|);
      r == if lo > hi || lo >= |s| then [] else s[lo..if hi < |s| then hi + 1 else |s|]
  {
    if |s| == 0 {
      return s;
    }
    var start, end := first, last;
    if start < 0 {
      start := |s| + start;
      if start < 0 {
        start := 0;
      }
    }
    if end < 0 {
      end := |s| + end;
      if end < 0 {
        end := 0;
      }
    }
    var newlen := if start > end then 0 else end - start + 1;
    if newlen != 0 {
      if start >= |s| {
        newlen := 0;
      } else if end >= |s| {
        end := |s| - 1;
        newlen := if start > end then 0 else end - start + 1;
      }
    } else {
      start := 0;
    }
    r := if start < |s| && newlen != 0 then s[start..start + newlen] else s[..newlen];
  }

  function Flatten(chunks: seq<seq<Byte>>): seq<Byte> {
    if chunks == [] then [] else Flatten(chunks[..|chunks| - 1]) + chunks[|chunks| - 1]
  }

  /** After the replies, the stream goes on as its undecided rest does, whatever t follows. */
  ghost predicate Emitted(lim: Limits, stream: seq<Byte>, replies: seq<Reply>, rest: seq<Byte>, t: seq<Byte>) {
    var p := ParseAll(lim, rest + t);
    ParseAll(lim, stream + t) == (replies + p.0, p.1)
  }

  ghost predicate Tracks(lim: Limits, stream: seq<Byte>, replies: seq<Reply>, rest: seq<Byte>) {
    forall t :: Emitted(lim, stream, replies, rest, t)
  }

  lemma EmitOne(lim: Limits, stream: seq<Byte>, replies: seq<Reply>, rest: seq<Byte>)
    requires Tracks(lim, stream, replies, rest)
    requires ParseReply(lim, rest).Done?
    ensures var p := ParseReply(lim, rest);
            Tracks(lim, stream, replies + [p.value], rest[p.used..])
  {
    hide ParseReply;
    var p := ParseReply(lim, rest);
    forall t ensures Emitted(lim, stream, replies + [p.value], rest[p.used..], t) {
      assert Emitted(lim, stream, replies, rest, t);
      ReplyExtends(lim, rest, t);
      assert (rest + t)[p.used..] == rest[p.used..] + t;
      var q := ParseAll(lim, rest[p.used..] + t);
      assert replies + ([p.value] + q.0) == replies + [p.value] + q.0;
    }
  }

  lemma FeedMore(lim: Limits, stream: seq<Byte>, replies: seq<Reply>, rest: seq<Byte>, bytes: seq<Byte>)
    requires Tracks(lim, stream, replies, rest)
    ensures Tracks(lim, stream + bytes, replies, rest + bytes)
  {
    forall t ensures Emitted(lim, stream + bytes, replies, rest + bytes, t) {
      assert Emitted(lim, stream, replies, rest, bytes + t);
      Regroup(stream, bytes, t);
      Regroup(rest, bytes, t);
    }
  }

  ghost predicate Stuck(lim: Limits, stream: seq<Byte>, replies: seq<Reply>, f: Fault) {
    forall t :: Fails(lim, stream, replies, f, t)
  }

  ghost predicate Fails(lim: Limits, stream: seq<Byte>, replies: seq<Reply>, f: Fault, t: seq<Byte>) {
    ParseAll(lim, stream + t) == (replies, Failed(f))
  }

  lemma StuckNow(lim: Limits, stream: seq<Byte>, replies: seq<Reply>, rest: seq<Byte>, f: Fault)
    requires Tracks(lim, stream, replies, rest)
    requires ParseReply(lim, rest) == Bad(f)
    ensures Stuck(lim, stream, replies, f)
  {
    forall t ensures Fails(lim, stream, replies, f, t) {
      assert Emitted(lim, stream, replies, rest, t);
      ReplyExtends(lim, rest, t);
      assert ParseAll(lim, rest + t) == ([], Failed(f)) && replies + [] == replies;
    }
  }

  lemma StuckLater(lim: Limits, stream: seq<Byte>, replies: seq<Reply>, f: Fault, bytes: seq<Byte>)
    requires Stuck(lim, stream, replies, f)
    ensures Stuck(lim, stream + bytes, replies, f)
  {
    forall t ensures Fails(lim, stream + bytes, replies, f, t) {
      assert Fails(lim, stream, replies, f, bytes + t);
      Regroup(stream, bytes, t);
    }
  }

  /** The verdict so far: drained and waiting for more of the stream, or stuck on an error. */
  ghost predicate Settled(lim: Limits, stream: seq<Byte>, replies: seq<Reply>, err: Option<Fault>, rest: seq<Byte>) {
    if err.Some? then Stuck(lim, stream, replies, err.value)
    else Tracks(lim, stream, replies, rest) && ParseReply(lim, rest).More?
  }

  lemma SettledAtEnd(lim: Limits, stream: seq<Byte>, replies: seq<Reply>, err: Option<Fault>, rest: seq<Byte>)
    requires Settled(lim, stream, replies, err, rest)
    ensures ParseAll(lim, stream) == (replies, if err.Some? then Failed(err.value) else Waiting)
  {
    assert stream + [] == stream && rest + [] == rest;
    if err.Some? {
      assert Fails(lim, stream, replies, err.value, []);
    } else {
      assert Emitted(lim, stream, replies, rest, []);
      assert ParseAll(lim, rest) == ([], Waiting) && replies + [] == replies;
    }
  }

  /** Feed a stream in any chunks, fetching replies after each until there is none: the replies
      and the final error depend on the bytes alone, and are those of the grammar. */
  method ReadStream(lim: Limits, chunks: seq<seq<Byte>>) returns (replies: seq<Reply>, ending: Ending)
    ensures (replies, ending) == ParseAll(lim, Flatten(chunks))
  {
    var r := new Reader(lim);
    replies := [];
    forall t ensures Emitted(lim, [], [], [], t) {
      assert [] + t == t && [] + ParseAll(lim, t).0 == ParseAll(lim, t).0;
    }
    var i := 0;
    while i < |chunks|
      invariant 0 <= i <= |chunks| && fresh(r) && r.Ready() && r.lim == lim
      invariant Settled(lim, Flatten(chunks[..i]), replies, r.err, r.Pending())
    {
      assert chunks[..i + 1][..i] == chunks[..i];
      replies := FeedAndDrain(r, Flatten(chunks[..i]), replies, chunks[i]);
      i := i + 1;
    }
    assert chunks[..i] == chunks;
    SettledAtEnd(lim, Flatten(chunks), replies, r.err, r.Pending());
    ending := if r.err.Some? then Failed(r.err.value) else Waiting;
  }

  method FeedAndDrain(r: Reader, ghost before: seq<Byte>, fetched: seq<Reply>, bytes: seq<Byte>) returns (replies: seq<Reply>)
    requires r.Ready() && Settled(r.lim, before, fetched, r.err, r.Pending())
    modifies r
    ensures r.Ready() && Settled(r.lim, before + bytes, replies, r.err, r.Pending())
  {
    replies := fetched;
    if r.err.Some? {
      StuckLater(r.lim, before, replies, r.err.value, bytes);
    } else {
      FeedMore(r.lim, before, replies, r.Pending(), bytes);
    }
    var more := r.Feed(bytes);
    while more
      invariant r.Ready() && (more ==> r.err.None?)
      invariant if more then Tracks(r.lim, before + bytes, replies, r.Pending())
                else Settled(r.lim, before + bytes, replies, r.err, r.Pending())
      decreases more, if r.err.None? then |r.Pending()| else 0
    {
      ghost var rest := r.Pending();
      var ok, id := r.GetReply();
      if !ok {
        StuckNow(r.lim, before + bytes, replies, rest, r.err.value);
        more := false;
      } else if id.Some? {
        EmitOne(r.lim, before + bytes, replies, rest);
        replies := replies + [Tree(r.objs, id.value)];
      } else {
        more := false;
      }
    }
  }
}
