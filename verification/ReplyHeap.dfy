/** Reply objects as the constructors of src/valkey.c allocate and link them, and the task
    stack of src/read.c over them. An object is named by its position in allocation order. */
module ReplyHeap {
  import opened Bytes
  import opened Resp
  import opened Continuation

  datatype Obj = Leaf(value: Reply) | Node(kind: Kind, element: seq<Option<nat>>)

  /** One entry of the reader's task stack. `elements` is -1 while nothing was announced. */
  datatype Task = Task(kind: Option<Kind>, elements: int, idx: int, obj: Option<nat>)

  /** Object id, allocated in [lo, hi) together with everything below it, is the tree v. */
  ghost predicate Shows(objs: seq<Obj>, lo: nat, hi: nat, id: nat, v: Reply)
    decreases v
  {
    && lo <= id < hi <= |objs|
    && match v
       case AggReply(kind, elems) =>
         && objs[id].Node? && objs[id].kind == kind && |objs[id].element| == |elems|
         && forall j :: 0 <= j < |elems| ==>
              objs[id].element[j].Some? && Shows(objs, id + 1, hi, objs[id].element[j].value, elems[j])
       case _ => objs[id] == Leaf(v)
  }

  lemma {:induction false} ShowsFrame(objs: seq<Obj>, objs': seq<Obj>, lo: nat, hi: nat, lo': nat, hi': nat, id: nat, v: Reply)
    requires Shows(objs, lo, hi, id, v)
    requires lo' <= lo && hi <= hi' <= |objs'| && forall i :: lo <= i < hi ==> objs'[i] == objs[i]
    ensures Shows(objs', lo', hi', id, v)
    decreases v
  {
    if v.AggReply? {
      forall j | 0 <= j < |v.elems| ensures Shows(objs', id + 1, hi', objs[id].element[j].value, v.elems[j]) {
        ShowsFrame(objs, objs', id + 1, hi, id + 1, hi', objs[id].element[j].value, v.elems[j]);
      }
    }
  }

  /** The tree a caller sees from object id. */
  function Tree(objs: seq<Obj>, id: nat): Reply
    decreases |objs| - id
  {
    if id >= |objs| then NilReply
    else
      match objs[id]
      case Leaf(v) => v
      case Node(kind, element) =>
        AggReply(kind, seq(|element|, j requires 0 <= j < |element| =>
          if element[j].Some? && element[j].value > id then Tree(objs, element[j].value) else NilReply))
  }

  lemma {:induction false} ShowsTree(objs: seq<Obj>, lo: nat, hi: nat, id: nat, v: Reply)
    requires Shows(objs, lo, hi, id, v)
    ensures Tree(objs, id) == v
    decreases v
  {
    if v.AggReply? {
      forall j | 0 <= j < |v.elems| ensures Tree(objs, objs[id].element[j].value) == v.elems[j] {
        ShowsTree(objs, id + 1, hi, objs[id].element[j].value, v.elems[j]);
      }
      assert Tree(objs, id).elems == v.elems;
    }
  }

  /** The object in the element cell that level k is filling: the next level's object, or
      `cell` at the innermost level. */
  function Child(ts: seq<Task>, n: nat, cell: Option<nat>, k: nat): Option<nat>
    requires n < |ts|
  {
    if k + 1 < n then ts[k + 1].obj else cell
  }

  function Bound(objs: seq<Obj>, child: Option<nat>): nat {
    if child.Some? then child.value else |objs|
  }

  /** Level k of the task stack represents frame f: finished elements are linked in order,
      the current cell holds `child`, all later cells are still empty. */
  ghost predicate Level(objs: seq<Obj>, t: Task, idx: int, child: Option<nat>, f: Frame) {
    && t.kind == Some(f.kind) && f.kind.IsAggregate() && t.elements == f.total
    && idx == |f.done| < f.total
    && t.obj.Some? && t.obj.value < |objs|
    && objs[t.obj.value].Node? && objs[t.obj.value].kind == f.kind
    && (child.Some? ==> t.obj.value < child.value < |objs|)
    && var cells := objs[t.obj.value].element;
    && |cells| == f.total
    && cells[idx] == child
    && (forall j :: idx < j < |cells| ==> cells[j] == None)
    && (forall j :: 0 <= j < idx ==>
          cells[j].Some? && Shows(objs, t.obj.value + 1, Bound(objs, child), cells[j].value, f.done[j]))
  }

  /** Tasks 0..n of ts are the open aggregates of the stack. */
  ghost predicate Spine(objs: seq<Obj>, ts: seq<Task>, n: nat, cell: Option<nat>, stack: seq<Frame>) {
    && n < |ts| && |stack| == n
    && forall k {:trigger stack[k]} :: 0 <= k < n ==> Level(objs, ts[k], ts[k + 1].idx, Child(ts, n, cell, k), stack[k])
  }

  /** Allocation by one of the create functions, which also link a nested object into its parent. */
  function Allocate(objs: seq<Obj>, parent: Option<nat>, idx: int, o: Obj): seq<Obj>
    requires parent.Some? ==> parent.value < |objs| && objs[parent.value].Node? && 0 <= idx < |objs[parent.value].element|
  {
    if parent.Some? then
      var p := objs[parent.value];
      objs[parent.value := p.(element := p.element[idx := Some(|objs|)])] + [o]
    else objs + [o]
  }

  lemma LevelFrame(objs: seq<Obj>, objs': seq<Obj>, t: Task, idx: int, child: Option<nat>, child': Option<nat>, f: Frame)
    requires Level(objs, t, idx, child, f)
    requires |objs'| >= |objs| && Bound(objs, child) <= Bound(objs', child')
    requires child'.Some? ==> t.obj.value < child'.value < |objs'|
    requires forall i :: t.obj.value < i < Bound(objs, child) ==> objs'[i] == objs[i]
    requires objs'[t.obj.value] == objs[t.obj.value].(element := objs[t.obj.value].element[idx := child'])
    ensures Level(objs', t, idx, child', f)
  {
    var cells := objs[t.obj.value].element;
    forall j | 0 <= j < idx ensures Shows(objs', t.obj.value + 1, Bound(objs', child'), cells[j].value, f.done[j]) {
      ShowsFrame(objs, objs', t.obj.value + 1, Bound(objs, child), t.obj.value + 1, Bound(objs', child'), cells[j].value, f.done[j]);
    }
  }

  lemma {:induction false} SpineOrder(objs: seq<Obj>, ts: seq<Task>, n: nat, cell: Option<nat>, stack: seq<Frame>, k: nat)
    requires Spine(objs, ts, n, cell, stack) && k < n
    ensures ts[k].obj.Some? && ts[n - 1].obj.Some? && (k < n - 1 ==> ts[k].obj.value < ts[n - 1].obj.value)
    decreases n - k
  {
    assert Level(objs, ts[k], ts[k + 1].idx, Child(ts, n, cell, k), stack[k]);
    if k < n - 1 {
      SpineOrder(objs, ts, n, cell, stack, k + 1);
    }
  }

  /** Allocating into the empty cell of the innermost level touches nothing else. */
  lemma SpineAllocate(objs: seq<Obj>, ts: seq<Task>, n: nat, stack: seq<Frame>, o: Obj)
    requires Spine(objs, ts, n, None, stack)
    ensures n > 0 ==> Level(objs, ts[n - 1], ts[n].idx, None, stack[n - 1])
    ensures var objs' := Allocate(objs, if n > 0 then ts[n - 1].obj else None, ts[n].idx, o);
            Spine(objs', ts, n, Some(|objs|), stack) && objs'[|objs|..] == [o]
  {
    if n > 0 {
      assert Level(objs, ts[n - 1], ts[n].idx, None, stack[n - 1]) by { assert stack[n - 1] in stack; }
      var objs' := Allocate(objs, ts[n - 1].obj, ts[n].idx, o);
      forall k {:trigger stack[k]} | 0 <= k < n
        ensures Level(objs', ts[k], ts[k + 1].idx, Child(ts, n, Some(|objs|), k), stack[k])
      {
        var child := Child(ts, n, None, k);
        assert Level(objs, ts[k], ts[k + 1].idx, child, stack[k]);
        if k < n - 1 {
          SpineOrder(objs, ts, n, None, stack, k);
          SpineOrder(objs, ts, n, None, stack, k + 1);
          assert objs'[ts[k].obj.value].element == objs[ts[k].obj.value].element[ts[k + 1].idx := child];
          LevelFrame(objs, objs', ts[k], ts[k + 1].idx, child, child, stack[k]);
        } else {
          LevelFrame(objs, objs', ts[k], ts[k + 1].idx, child, Some(|objs|), stack[k]);
        }
      }
    }
  }

  /** The current cell holds object `cell`, the finished tree v. */
  ghost predicate Filled(objs: seq<Obj>, ts: seq<Task>, n: nat, cell: nat, stack: seq<Frame>, v: Reply) {
    Spine(objs, ts, n, Some(cell), stack) && Shows(objs, cell, |objs|, cell, v)
  }

  /** The object that fills the innermost aggregate's last cell turns it into a finished tree. */
  lemma SpineClose(objs: seq<Obj>, ts: seq<Task>, n: nat, cell: nat, stack: seq<Frame>, v: Reply)
    requires n > 0 && Filled(objs, ts, n, cell, stack, v) && ts[n].idx == ts[n - 1].elements - 1
    ensures var f := stack[n - 1];
            var v' := AggReply(f.kind, f.done + [v]);
            && ts[n - 1].obj.Some? && Filled(objs, ts, n - 1, ts[n - 1].obj.value, stack[..n - 1], v')
            && Next(stack, v) == Next(stack[..n - 1], v')
  {
    var f := stack[n - 1];
    assert Level(objs, ts[n - 1], ts[n].idx, Some(cell), f);
    var id := ts[n - 1].obj.value;
    var cells, elems := objs[id].element, f.done + [v];
    forall j | 0 <= j < |elems| ensures cells[j].Some? && Shows(objs, id + 1, |objs|, cells[j].value, elems[j]) {
      if j < |f.done| {
        ShowsFrame(objs, objs, id + 1, cell, id + 1, |objs|, cells[j].value, elems[j]);
      } else {
        ShowsFrame(objs, objs, cell, |objs|, id + 1, |objs|, cell, v);
      }
    }
    forall k {:trigger stack[k]} | 0 <= k < n - 1
      ensures Level(objs, ts[k], ts[k + 1].idx, Child(ts, n - 1, Some(id), k), stack[..n - 1][k])
    {
      assert Level(objs, ts[k], ts[k + 1].idx, Child(ts, n, Some(cell), k), stack[k]);
    }
  }

  /** Otherwise the innermost task moves on to the next, still empty cell. */
  lemma SpineAdvance(objs: seq<Obj>, ts: seq<Task>, n: nat, cell: nat, stack: seq<Frame>, v: Reply, ts': seq<Task>)
    requires n > 0 && Filled(objs, ts, n, cell, stack, v) && ts[n].idx != ts[n - 1].elements - 1
    requires |ts'| == |ts| && ts'[..n] == ts[..n] && ts'[n].idx == ts[n].idx + 1
    ensures Next(stack, v).Open? && Next(stack, v).cur == None && Spine(objs, ts', n, None, Next(stack, v).stack)
  {
    var f := stack[n - 1];
    var f' := f.(done := f.done + [v]);
    var stack' := stack[..n - 1] + [f'];
    assert Level(objs, ts[n - 1], ts[n].idx, Some(cell), f);
    forall k {:trigger stack'[k]} | 0 <= k < n
      ensures Level(objs, ts'[k], ts'[k + 1].idx, Child(ts', n, None, k), stack'[k])
    {
      assert Level(objs, ts[k], ts[k + 1].idx, Child(ts, n, Some(cell), k), stack[k]);
      assert ts'[k] == ts'[..n][k] == ts[k];
      if k == n - 1 {
        AdvanceLevel(objs, ts[k], ts[n].idx, cell, f, v);
      } else {
        assert ts'[k + 1] == ts'[..n][k + 1] == ts[k + 1];
      }
    }
  }

  /** Cell j of an aggregate whose current cell was just finished. */
  lemma AdvanceCell(objs: seq<Obj>, t: Task, idx: int, cell: nat, f: Frame, v: Reply, j: nat)
    requires Level(objs, t, idx, Some(cell), f) && Shows(objs, cell, |objs|, cell, v) && j <= |f.done|
    ensures var c := objs[t.obj.value].element[j];
      c.Some? && Shows(objs, t.obj.value + 1, |objs|, c.value, if j < |f.done| then f.done[j] else v)
  {
    var id := t.obj.value;
    if j < |f.done| {
      var c := objs[id].element[j];
      ShowsFrame(objs, objs, id + 1, cell, id + 1, |objs|, c.value, f.done[j]);
    } else {
      ShowsFrame(objs, objs, cell, |objs|, id + 1, |objs|, cell, v);
    }
  }

  lemma {:induction false} AdvanceLevel(objs: seq<Obj>, t: Task, idx: int, cell: nat, f: Frame, v: Reply)
    requires Level(objs, t, idx, Some(cell), f) && Shows(objs, cell, |objs|, cell, v)
    requires |f.done| + 1 < f.total
    ensures Level(objs, t, idx + 1, None, f.(done := f.done + [v]))
  {
    var id, done := t.obj.value, f.done + [v];
    var cells := objs[id].element;
    forall j | 0 <= j < |done|
      ensures cells[j].Some? && Shows(objs, id + 1, |objs|, cells[j].value, done[j])
    {
      hide Level, Shows;
      AdvanceCell(objs, t, idx, cell, f, v, j);
    }
  }

  /** A freshly allocated aggregate becomes the innermost level. */
  lemma SpineOpen(objs: seq<Obj>, ts: seq<Task>, n: nat, cell: nat, stack: seq<Frame>, f: Frame, ts': seq<Task>)
    requires Spine(objs, ts, n, Some(cell), stack) && cell == |objs| - 1
    requires f.kind.IsAggregate() && f.total > 0 && f.done == []
    requires objs[cell] == Node(f.kind, seq(f.total, _ => None))
    requires |ts'| > n + 1 && ts'[..n] == ts[..n] && ts'[n].idx == ts[n].idx
    requires ts'[n].kind == Some(f.kind) && ts'[n].elements == f.total && ts'[n].obj == Some(cell)
    requires ts'[n + 1].idx == 0
    ensures Spine(objs, ts', n + 1, None, stack + [f])
  {
    var stack' := stack + [f];
    forall k {:trigger stack'[k]} | 0 <= k < n + 1
      ensures Level(objs, ts'[k], ts'[k + 1].idx, Child(ts', n + 1, None, k), stack'[k])
    {
      if k < n {
        assert Level(objs, ts[k], ts[k + 1].idx, Child(ts, n, Some(cell), k), stack[k]);
        assert ts'[k] == ts'[..n][k] == ts[k];
        if k + 1 < n {
          assert ts'[k + 1] == ts'[..n][k + 1] == ts[k + 1];
        }
      }
    }
  }

  lemma SpineLonger(objs: seq<Obj>, ts: seq<Task>, ts': seq<Task>, n: nat, cell: Option<nat>, stack: seq<Frame>)
    requires Spine(objs, ts, n, cell, stack) && |ts| <= |ts'| && ts'[..|ts|] == ts
    ensures Spine(objs, ts', n, cell, stack)
  {
    forall k {:trigger stack[k]} | 0 <= k < n
      ensures Level(objs, ts'[k], ts'[k + 1].idx, Child(ts', n, cell, k), stack[k])
    {
      assert ts'[k] == ts[k] && ts'[k + 1] == ts[k + 1];
      assert Level(objs, ts[k], ts[k + 1].idx, Child(ts, n, cell, k), stack[k]);
    }
  }

  /** The current task's own kind plays no part in the levels. */
  lemma SpineTop(objs: seq<Obj>, ts: seq<Task>, ts': seq<Task>, n: nat, stack: seq<Frame>)
    requires Spine(objs, ts, n, None, stack)
    requires |ts'| == |ts| && ts'[..n] == ts[..n] && ts'[n].idx == ts[n].idx
    ensures Spine(objs, ts', n, None, stack)
  {
    forall k {:trigger stack[k]} | 0 <= k < n
      ensures Level(objs, ts'[k], ts'[k + 1].idx, Child(ts', n, None, k), stack[k])
    {
      assert Level(objs, ts[k], ts[k + 1].idx, Child(ts, n, None, k), stack[k]);
      assert ts'[k] == ts'[..n][k] == ts[k];
      if k + 1 < n {
        assert ts'[k + 1] == ts'[..n][k + 1] == ts[k + 1];
      }
    }
  }

  /** Tasks 0..ridx, the reply objects and the root represent parse state s. */
  ghost predicate Holds(s: State, ridx: int, ts: seq<Task>, objs: seq<Obj>, reply: Option<nat>) {
    match s
    case Complete(v) => ridx == -1 && reply.Some? && Shows(objs, reply.value, |objs|, reply.value, v)
    case Open(stack, cur) =>
      && 0 <= ridx < |ts| && Running(stack) && Spine(objs, ts, ridx, None, stack)
      && ts[ridx].kind == cur && reply == if ridx > 0 then ts[0].obj else None
  }
}
