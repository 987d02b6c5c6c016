/**
 * Chains of hash table entries. Entries live in an arena addressed by index,
 * with -1 for the null pointer; an entry that is released is marked so.
 */
module Chains {
  import opened Bytes

  type Key = seq<Byte>
  type Handle = nat

  const NULL := -1

  datatype Node = Live(key: Key, val: Handle, next: int) | Freed

  /** The live nodes reached from `head` through the `next` pointers are exactly `chain`. */
  ghost predicate Linked(nodes: seq<Node>, head: int, chain: seq<nat>)
    decreases chain
  {
    if chain == [] then head == NULL
    else
      && head == chain[0] < |nodes| && nodes[head].Live?
      && Linked(nodes, nodes[head].next, chain[1..])
  }

  /** The keys and values along a chain. */
  ghost function Pairs(nodes: seq<Node>, chain: seq<nat>): map<Key, Handle> {
    if chain == [] then map[]
    else if chain[0] < |nodes| && nodes[chain[0]].Live? then
      Pairs(nodes, chain[1..])[nodes[chain[0]].key := nodes[chain[0]].val]
    else Pairs(nodes, chain[1..])
  }

  ghost predicate UniqueKeys(nodes: seq<Node>, chain: seq<nat>) {
    chain == [] || (
      && chain[0] < |nodes| && nodes[chain[0]].Live?
      && nodes[chain[0]].key !in Pairs(nodes, chain[1..])
      && UniqueKeys(nodes, chain[1..]))
  }

  /** A chain that holds every key at most once, and only keys of its bucket. */
  ghost predicate Bucketed(nodes: seq<Node>, head: int, chain: seq<nat>, hash: Key -> nat, size: nat, b: nat)
    requires size > 0
  {
    && Linked(nodes, head, chain) && UniqueKeys(nodes, chain)
    && forall k :: k in Pairs(nodes, chain) ==> hash(k) % size == b
  }

  /** Nodes on a chain have their key among the chain's keys. */
  lemma {:induction false} NodeKey(nodes: seq<Node>, chain: seq<nat>, n: nat)
    requires UniqueKeys(nodes, chain) && n in chain
    ensures n < |nodes| && nodes[n].Live? && nodes[n].key in Pairs(nodes, chain)
    ensures Pairs(nodes, chain)[nodes[n].key] == nodes[n].val
  {
    if chain[0] != n {
      NodeKey(nodes, chain[1..], n);
    }
  }

  /** Every key of a chain is the key of one of its nodes. */
  lemma {:induction false} KeyNode(nodes: seq<Node>, chain: seq<nat>, k: Key) returns (i: nat)
    requires UniqueKeys(nodes, chain) && k in Pairs(nodes, chain)
    ensures i < |chain| && chain[i] < |nodes| && nodes[chain[i]].Live? && nodes[chain[i]].key == k
  {
    if nodes[chain[0]].key == k {
      i := 0;
    } else {
      var j := KeyNode(nodes, chain[1..], k);
      i := j + 1;
    }
  }

  ghost predicate SameOn(nodes: seq<Node>, other: seq<Node>, chain: seq<nat>) {
    forall i :: 0 <= i < |chain| && chain[i] < |nodes| ==> chain[i] < |other| && other[chain[i]] == nodes[chain[i]]
  }

  lemma SameOnTail(nodes: seq<Node>, other: seq<Node>, chain: seq<nat>)
    requires SameOn(nodes, other, chain) && chain != []
    ensures SameOn(nodes, other, chain[1..])
  {
    forall i | 0 <= i < |chain| - 1 && chain[1..][i] < |nodes|
      ensures chain[1..][i] < |other| && other[chain[1..][i]] == nodes[chain[1..][i]]
    {
      assert chain[1..][i] == chain[i + 1];
    }
  }

  /** A chain looks the same in an arena that agrees on its nodes. */
  lemma {:induction false} SameChain(nodes: seq<Node>, other: seq<Node>, head: int, chain: seq<nat>)
    requires UniqueKeys(nodes, chain) && Linked(nodes, head, chain)
    requires SameOn(nodes, other, chain)
    ensures UniqueKeys(other, chain) && Linked(other, head, chain) && Pairs(other, chain) == Pairs(nodes, chain)
    decreases chain
  {
    if chain != [] {
      assert chain[0] < |other| && other[chain[0]] == nodes[chain[0]];
      SameOnTail(nodes, other, chain);
      hide SameOn;
      SameChain(nodes, other, nodes[head].next, chain[1..]);
    }
  }

  /** Linking a node in front of a chain. */
  lemma Prepend(nodes: seq<Node>, n: nat, head: int, chain: seq<nat>)
    requires Linked(nodes, head, chain) && UniqueKeys(nodes, chain)
    requires n < |nodes| && nodes[n].Live? && nodes[n].next == head && nodes[n].key !in Pairs(nodes, chain)
    ensures Linked(nodes, n, [n] + chain) && UniqueKeys(nodes, [n] + chain)
    ensures Pairs(nodes, [n] + chain) == Pairs(nodes, chain)[nodes[n].key := nodes[n].val]
  {
    assert ([n] + chain)[1..] == chain;
  }

  /** The rest of a chain, after following `i` pointers. */
  lemma {:induction false} Follow(nodes: seq<Node>, head: int, chain: seq<nat>, i: nat)
    requires Linked(nodes, head, chain) && UniqueKeys(nodes, chain) && i < |chain|
    ensures chain[i] < |nodes| && nodes[chain[i]].Live?
    ensures Linked(nodes, chain[i], chain[i..]) && UniqueKeys(nodes, chain[i..])
    ensures Linked(nodes, nodes[chain[i]].next, chain[i + 1..])
    decreases i
  {
    if i > 0 {
      Follow(nodes, nodes[head].next, chain[1..], i - 1);
      assert chain[1..][i - 1..] == chain[i..] && chain[1..][i..] == chain[i + 1..];
    } else {
      assert chain[0..] == chain;
    }
  }

  /** No node stands twice on a chain. */
  lemma {:induction false} NoRepeats(nodes: seq<Node>, chain: seq<nat>, i: nat, j: nat)
    requires UniqueKeys(nodes, chain) && i < j < |chain|
    ensures chain[i] != chain[j]
    decreases i
  {
    if i == 0 {
      assert chain[j] == chain[1..][j - 1];
      NodeKey(nodes, chain[1..], chain[j]);
    } else {
      NoRepeats(nodes, chain[1..], i - 1, j - 1);
    }
  }

  /** Changing the value of one node changes the value of its key. */
  lemma {:induction false} SetValue(nodes: seq<Node>, head: int, chain: seq<nat>, n: nat, v: Handle)
    requires Linked(nodes, head, chain) && UniqueKeys(nodes, chain) && n in chain && n < |nodes| && nodes[n].Live?
    ensures var other := nodes[n := nodes[n].(val := v)];
      && Linked(other, head, chain) && UniqueKeys(other, chain)
      && Pairs(other, chain) == Pairs(nodes, chain)[nodes[n].key := v]
    decreases chain
  {
    var other := nodes[n := nodes[n].(val := v)];
    if chain[0] == n {
      if n in chain[1..] {
        NodeKey(nodes, chain[1..], n);
      }
      SameChain(nodes, other, nodes[head].next, chain[1..]);
    } else {
      SetValue(nodes, nodes[head].next, chain[1..], n, v);
      NodeKey(nodes, chain[1..], n);
    }
  }

  ghost function Drop(chain: seq<nat>, i: nat): seq<nat>
    requires i < |chain|
  {
    chain[..i] + chain[i + 1..]
  }

  /** A node does not occur again after its place on the chain. */
  lemma NotAmong(nodes: seq<Node>, chain: seq<nat>, i: nat)
    requires UniqueKeys(nodes, chain) && i < |chain|
    ensures chain[i] !in chain[i + 1..]
  {
    forall j | i < j < |chain|
      ensures chain[j] != chain[i]
    {
      NoRepeats(nodes, chain, i, j);
    }
  }

  lemma DropNew<K, V>(m: map<K, V>, k: K, v: V)
    requires k !in m
    ensures m[k := v] - {k} == m
  {
  }

  lemma DropOther<K, V>(m: map<K, V>, k: K, v: V, other: K)
    requires k != other
    ensures m[k := v] - {other} == (m - {other})[k := v]
  {
  }

  /** Releasing the first node of a chain. */
  lemma UnlinkFirst(nodes: seq<Node>, head: int, chain: seq<nat>)
    requires Linked(nodes, head, chain) && UniqueKeys(nodes, chain) && chain != []
    ensures chain[0] < |nodes| && nodes[chain[0]].Live?
    ensures var other := nodes[chain[0] := Freed];
      && Linked(other, nodes[chain[0]].next, chain[1..]) && UniqueKeys(other, chain[1..])
      && Pairs(other, chain[1..]) == Pairs(nodes, chain) - {nodes[chain[0]].key}
  {
    var n := chain[0];
    NotAmong(nodes, chain, 0);
    SameChain(nodes, nodes[n := Freed], nodes[n].next, chain[1..]);
    DropNew(Pairs(nodes, chain[1..]), nodes[n].key, nodes[n].val);
  }

  /** Releasing the second node, which makes the first point past it. */
  lemma UnlinkSecond(nodes: seq<Node>, head: int, chain: seq<nat>)
    requires Linked(nodes, head, chain) && UniqueKeys(nodes, chain) && |chain| >= 2
    ensures chain[1] < |nodes| && nodes[chain[1]].Live?
    ensures var p, n := chain[0], chain[1];
      var other := nodes[p := nodes[p].(next := nodes[n].next)][n := Freed];
      && Linked(other, head, [p] + chain[2..]) && UniqueKeys(other, [p] + chain[2..])
      && Pairs(other, [p] + chain[2..]) == Pairs(nodes, chain) - {nodes[n].key}
  {
    var p, n, rest, tail := chain[0], chain[1], chain[1..], chain[2..];
    assert rest[1..] == tail && rest[0] == n;
    NoRepeats(nodes, chain, 0, 1);
    NotAmong(nodes, chain, 0);
    NotAmong(nodes, rest, 0);
    var other := nodes[p := nodes[p].(next := nodes[n].next)][n := Freed];
    assert p !in tail;
    SameChain(nodes, other, nodes[n].next, tail);
    NodeKey(nodes, rest, n);
    DropNew(Pairs(nodes, tail), nodes[n].key, nodes[n].val);
    DropOther(Pairs(nodes, rest), nodes[p].key, nodes[p].val, nodes[n].key);
    Prepend(other, p, nodes[n].next, tail);
  }

  /** Unlinking node `i` of a chain and releasing it: the chain goes on without it, and so do its pairs. */
  lemma {:induction false} Unlink(nodes: seq<Node>, head: int, chain: seq<nat>, i: nat)
    requires Linked(nodes, head, chain) && UniqueKeys(nodes, chain) && 0 < i < |chain|
    ensures chain[i] < |nodes| && nodes[chain[i]].Live? && chain[i - 1] < |nodes| && nodes[chain[i - 1]].Live?
    ensures var p, n := chain[i - 1], chain[i];
      var other := nodes[p := nodes[p].(next := nodes[n].next)][n := Freed];
      && Linked(other, head, Drop(chain, i)) && UniqueKeys(other, Drop(chain, i))
      && Pairs(other, Drop(chain, i)) == Pairs(nodes, chain) - {nodes[n].key}
    decreases i
  {
    if i == 1 {
      UnlinkSecond(nodes, head, chain);
      assert Drop(chain, 1) == [chain[0]] + chain[2..];
    } else {
      var first, rest, n := chain[0], chain[1..], chain[i];
      assert rest[i - 1] == n && rest[i - 2] == chain[i - 1];
      Unlink(nodes, nodes[head].next, rest, i - 1);
      NoRepeats(nodes, chain, 0, i);
      NoRepeats(nodes, chain, 0, i - 1);
      NodeKey(nodes, rest, n);
      DropOther(Pairs(nodes, rest), nodes[first].key, nodes[first].val, nodes[n].key);
      var other := nodes[chain[i - 1] := nodes[chain[i - 1]].(next := nodes[n].next)][n := Freed];
      Prepend(other, first, nodes[first].next, Drop(rest, i - 1));
      assert Drop(chain, i) == [first] + Drop(rest, i - 1);
    }
  }
}
