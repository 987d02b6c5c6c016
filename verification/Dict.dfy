/** The chained hash table, kept equal to a finite map. */
module Dict {
  import opened Bytes
  import opened Chains

  const DICT_HT_INITIAL_SIZE := 4

  ghost predicate PowerOfTwo(n: nat) {
    n == 1 || (n > 1 && n % 2 == 0 && PowerOfTwo(n / 2))
  }

  /** The next capacity: the smallest power of two, from 4 on, that is large enough. */
  method NextPower(size: nat) returns (r: nat)
    ensures PowerOfTwo(r) && r >= size && r >= 4
    ensures r == 4 || r / 2 < size
  {
    r := DICT_HT_INITIAL_SIZE;
    FourIsPower();
    while r < size
      invariant PowerOfTwo(r) && r >= 4 && (r == 4 || r / 2 < size)
      decreases size - r
    {
      DoublePower(r);
      r := r * 2;
    }
  }

  lemma FourIsPower()
    ensures PowerOfTwo(4)
  {
    assert PowerOfTwo(2);
  }

  /** The next power of two is twice as large. */
  lemma {:induction false} PowersApart(a: nat, b: nat)
    requires PowerOfTwo(a) && PowerOfTwo(b) && a <= b < 2 * a
    ensures a == b
  {
    if a > 1 {
      PowersApart(a / 2, b / 2);
    }
  }

  lemma DoublePower(n: nat)
    requires PowerOfTwo(n)
    ensures PowerOfTwo(n * 2) && n * 2 / 2 == n
  {
  }

  /** The number of nodes on all chains. */
  ghost function Total(chains: seq<seq<nat>>): nat {
    if chains == [] then 0 else Total(chains[..|chains| - 1]) + |chains[|chains| - 1]|
  }

  lemma {:induction false} TotalUpdate(chains: seq<seq<nat>>, b: nat, chain: seq<nat>)
    requires b < |chains|
    ensures Total(chains[b := chain]) == Total(chains) - |chains[b]| + |chain|
    ensures Total(chains) >= |chains[b]|
  {
    var n := |chains| - 1;
    if b < n {
      TotalUpdate(chains[..n], b, chain);
      assert chains[b := chain][..n] == chains[..n][b := chain];
    } else {
      assert chains[b := chain][..n] == chains[..n];
    }
  }

  /** Every bucket's chain is linked and holds each of its keys once. */
  ghost predicate Store(nodes: seq<Node>, table: seq<int>, chains: seq<seq<nat>>, hash: Key -> nat) {
    && |table| == |chains|
    && forall b :: 0 <= b < |table| ==> Bucketed(nodes, table[b], chains[b], hash, |table|, b)
  }

  ghost predicate SameAt(m: map<Key, Handle>, n: map<Key, Handle>, k: Key) {
    (k in m <==> k in n) && (k in m ==> m[k] == n[k])
  }

  ghost predicate SameExcept(m: map<Key, Handle>, n: map<Key, Handle>, k: Key) {
    forall x :: x != k ==> SameAt(m, n, x)
  }

  /** What the table stores in the bucket of a key. */
  ghost function BucketOf(nodes: seq<Node>, chains: seq<seq<nat>>, hash: Key -> nat, k: Key): map<Key, Handle> {
    if chains == [] then map[] else Pairs(nodes, chains[hash(k) % |chains|])
  }

  /** The table holds exactly the map's keys and values, each in the bucket of its hash. */
  ghost predicate Holds(nodes: seq<Node>, chains: seq<seq<nat>>, hash: Key -> nat, m: map<Key, Handle>) {
    forall k :: SameAt(m, BucketOf(nodes, chains, hash, k), k)
  }

  /** Buckets other than `b` do not see changes to nodes outside them. */
  lemma {:induction false} OtherBucket(nodes: seq<Node>, other: seq<Node>, table: seq<int>, chains: seq<seq<nat>>, hash: Key -> nat, b: nat, c: nat)
    requires Store(nodes, table, chains, hash) && b < |table| && c < |table| && b != c
    requires |nodes| <= |other| && forall n :: 0 <= n < |nodes| ==> other[n] == nodes[n] || n in chains[b]
    ensures Bucketed(other, table[c], chains[c], hash, |table|, c)
    ensures Pairs(other, chains[c]) == Pairs(nodes, chains[c])
  {
    assert Bucketed(nodes, table[b], chains[b], hash, |table|, b) && Bucketed(nodes, table[c], chains[c], hash, |table|, c);
    forall i | 0 <= i < |chains[c]| && chains[c][i] < |nodes|
      ensures other[chains[c][i]] == nodes[chains[c][i]]
    {
      var n := chains[c][i];
      NodeKey(nodes, chains[c], n);
      if n in chains[b] {
        NodeKey(nodes, chains[b], n);
      }
    }
    SameChain(nodes, other, table[c], chains[c]);
  }

  /** Replacing one bucket's chain, when the other buckets stay as they are. */
  lemma {:induction false} ReplaceBucket(nodes: seq<Node>, other: seq<Node>, table: seq<int>, chains: seq<seq<nat>>, hash: Key -> nat,
                      m: map<Key, Handle>, b: nat, head: int, chain: seq<nat>, k: Key, n: map<Key, Handle>)
    requires Store(nodes, table, chains, hash) && Holds(nodes, chains, hash, m) && b < |table| && b == hash(k) % |table|
    requires |nodes| <= |other| && forall n :: 0 <= n < |nodes| ==> other[n] == nodes[n] || n in chains[b]
    requires Linked(other, head, chain) && UniqueKeys(other, chain)
    requires SameExcept(m, n, k) && SameExcept(Pairs(nodes, chains[b]), Pairs(other, chain), k)
    requires SameAt(n, Pairs(other, chain), k)
    ensures Store(other, table[b := head], chains[b := chain], hash)
    ensures Holds(other, chains[b := chain], hash, n)
  {
    var t, cs := table[b := head], chains[b := chain];
    assert Bucketed(nodes, table[b], chains[b], hash, |table|, b);
    forall x | x in Pairs(other, chain)
      ensures hash(x) % |t| == b
    {
      if x != k {
        assert SameAt(Pairs(nodes, chains[b]), Pairs(other, chain), x);
      }
    }
    forall c | 0 <= c < |t|
      ensures Bucketed(other, t[c], cs[c], hash, |t|, c)
      ensures c != b ==> Pairs(other, cs[c]) == Pairs(nodes, chains[c])
    {
      if c != b {
        OtherBucket(nodes, other, table, chains, hash, b, c);
      }
    }
    forall x: Key
      ensures SameAt(n, BucketOf(other, cs, hash, x), x)
    {
      assert SameAt(m, BucketOf(nodes, chains, hash, x), x);
      if x != k {
        assert SameAt(m, n, x) && SameAt(Pairs(nodes, chains[b]), Pairs(other, chain), x);
      }
    }
  }

  /** Linking a new node in front of its bucket's chain adds its key. */
  lemma {:induction false} AddKeeps(nodes: seq<Node>, table: seq<int>, chains: seq<seq<nat>>, hash: Key -> nat, m: map<Key, Handle>,
                 k: Key, v: Handle)
    requires Store(nodes, table, chains, hash) && Holds(nodes, chains, hash, m) && table != [] && k !in m
    ensures var b := hash(k) % |table|;
      var other, t, cs := nodes + [Live(k, v, table[b])], table[b := |nodes|], chains[b := [|nodes|] + chains[b]];
      Store(other, t, cs, hash) && Holds(other, cs, hash, m[k := v])
  {
    var b := hash(k) % |table|;
    var other := nodes + [Live(k, v, table[b])];
    assert Bucketed(nodes, table[b], chains[b], hash, |table|, b);
    assert SameAt(m, BucketOf(nodes, chains, hash, k), k);
    LiveNodes(nodes, chains[b], table[b]);
    SameChain(nodes, other, table[b], chains[b]);
    Prepend(other, |nodes|, table[b], chains[b]);
    ReplaceBucket(nodes, other, table, chains, hash, m, b, |nodes|, [|nodes|] + chains[b], k, m[k := v]);
  }

  lemma LiveNodes(nodes: seq<Node>, chain: seq<nat>, head: int)
    requires UniqueKeys(nodes, chain)
    ensures forall i :: 0 <= i < |chain| ==> chain[i] < |nodes|
  {
    forall i | 0 <= i < |chain|
      ensures chain[i] < |nodes|
    {
      NodeKey(nodes, chain, chain[i]);
    }
  }

  /** Storing a new value in a key's node changes that key's value only. */
  lemma {:induction false} SetKeeps(nodes: seq<Node>, table: seq<int>, chains: seq<seq<nat>>, hash: Key -> nat, m: map<Key, Handle>,
                 n: nat, v: Handle)
    requires Store(nodes, table, chains, hash) && Holds(nodes, chains, hash, m)
    requires n < |nodes| && nodes[n].Live? && table != [] && n in chains[hash(nodes[n].key) % |table|]
    ensures var other := nodes[n := nodes[n].(val := v)];
      Store(other, table, chains, hash) && Holds(other, chains, hash, m[nodes[n].key := v])
  {
    var k := nodes[n].key;
    var b, other := hash(k) % |table|, nodes[n := nodes[n].(val := v)];
    assert Bucketed(nodes, table[b], chains[b], hash, |table|, b);
    SetValue(nodes, table[b], chains[b], n, v);
    ReplaceBucket(nodes, other, table, chains, hash, m, b, table[b], chains[b], k, m[k := v]);
    assert table[b := table[b]] == table && chains[b := chains[b]] == chains;
  }

  /** Unlinking and releasing a key's node removes that key only. */
  lemma {:induction false} DeleteKeeps(nodes: seq<Node>, table: seq<int>, chains: seq<seq<nat>>, hash: Key -> nat, m: map<Key, Handle>,
                    b: nat, i: nat, k: Key)
    requires Store(nodes, table, chains, hash) && Holds(nodes, chains, hash, m)
    requires b < |table| && b == hash(k) % |table| && i < |chains[b]|
    requires chains[b][i] < |nodes| && nodes[chains[b][i]].Live? && nodes[chains[b][i]].key == k
    ensures i > 0 ==> chains[b][i - 1] < |nodes| && nodes[chains[b][i - 1]].Live?
    ensures var n, cs := chains[b][i], chains[b := Drop(chains[b], i)];
      var t := if i == 0 then table[b := nodes[n].next] else table;
      var linked := if i == 0 then nodes else nodes[chains[b][i - 1] := nodes[chains[b][i - 1]].(next := nodes[n].next)];
      var other := linked[n := Freed];
      Store(other, t, cs, hash) && Holds(other, cs, hash, m - {k})
  {
    var chain, n := chains[b], chains[b][i];
    assert Bucketed(nodes, table[b], chain, hash, |table|, b);
    if i == 0 {
      UnlinkFirst(nodes, table[b], chain);
      assert Drop(chain, 0) == chain[1..];
      var other := nodes[n := Freed];
      ReplaceBucket(nodes, other, table, chains, hash, m, b, nodes[n].next, Drop(chain, 0), k, m - {k});
    } else {
      Unlink(nodes, table[b], chain, i);
      var p := chain[i - 1];
      var other := nodes[p := nodes[p].(next := nodes[n].next)][n := Freed];
      ReplaceBucket(nodes, other, table, chains, hash, m, b, table[b], Drop(chain, i), k, m - {k});
      assert table[b := table[b]] == table;
    }
  }

  /** Changing a node that stands on none of the chains changes nothing. */
  lemma {:induction false} OutsideKeeps(nodes: seq<Node>, other: seq<Node>, table: seq<int>, chains: seq<seq<nat>>, hash: Key -> nat,
                     m: map<Key, Handle>, n: nat)
    requires Store(nodes, table, chains, hash) && Holds(nodes, chains, hash, m)
    requires n < |nodes| == |other| && nodes[n].Live? && nodes[n].key !in m
    requires forall i :: 0 <= i < |nodes| && i != n ==> other[i] == nodes[i]
    ensures Store(other, table, chains, hash) && Holds(other, chains, hash, m)
  {
    assert SameAt(m, BucketOf(nodes, chains, hash, nodes[n].key), nodes[n].key);
    forall c | 0 <= c < |table|
      ensures Bucketed(other, table[c], chains[c], hash, |table|, c)
      ensures Pairs(other, chains[c]) == Pairs(nodes, chains[c])
    {
      assert Bucketed(nodes, table[c], chains[c], hash, |table|, c);
      if n in chains[c] {
        NodeKey(nodes, chains[c], n);
      }
      LiveNodes(nodes, chains[c], table[c]);
      SameChain(nodes, other, table[c], chains[c]);
    }
    forall x: Key
      ensures SameAt(m, BucketOf(other, chains, hash, x), x)
    {
      assert SameAt(m, BucketOf(nodes, chains, hash, x), x);
    }
  }

  /** The two tables of an expansion under way: what is still to be moved, and what has been. */
  ghost predicate Moving(nodes: seq<Node>, heads: seq<int>, before: seq<seq<nat>>, table: seq<int>, chains: seq<seq<nat>>,
                         hash: Key -> nat, left: map<Key, Handle>, moved: map<Key, Handle>) {
    && Store(nodes, heads, before, hash) && Holds(nodes, before, hash, left)
    && Store(nodes, table, chains, hash) && Holds(nodes, chains, hash, moved)
    && forall k :: k in left ==> k !in moved
  }

  /** Moving the first node of an old chain to the front of its chain in the new table. */
  lemma {:induction false} MoveKeeps(nodes: seq<Node>, heads: seq<int>, before: seq<seq<nat>>, table: seq<int>, chains: seq<seq<nat>>,
                  hash: Key -> nat, left: map<Key, Handle>, moved: map<Key, Handle>, i: nat)
    requires Moving(nodes, heads, before, table, chains, hash, left, moved)
    requires i < |heads| && before[i] != [] && table != []
    ensures heads[i] == before[i][0] < |nodes| && nodes[heads[i]].Live?
    ensures var n := before[i][0];
      var k, v, b := nodes[n].key, nodes[n].val, hash(nodes[n].key) % |table|;
      && k in left && left[k] == v
      && Moving(nodes[n := nodes[n].(next := table[b])], heads[i := nodes[n].next], before[i := before[i][1..]],
                table[b := n], chains[b := [n] + chains[b]], hash, left - {k}, moved[k := v])
  {
    var chain, n := before[i], before[i][0];
    assert Bucketed(nodes, heads[i], chain, hash, |heads|, i);
    var k, v, b := nodes[n].key, nodes[n].val, hash(nodes[n].key) % |table|;
    var other := nodes[n := nodes[n].(next := table[b])];
    NodeKey(nodes, chain, n);
    assert SameAt(left, BucketOf(nodes, before, hash, k), k);
    NotAmong(nodes, chain, 0);
    SameChain(nodes, other, nodes[n].next, chain[1..]);
    DropNew(Pairs(nodes, chain[1..]), k, v);
    ReplaceBucket(nodes, other, heads, before, hash, left, i, nodes[n].next, chain[1..], k, left - {k});
    OutsideKeeps(nodes, other, table, chains, hash, moved, n);
    assert Bucketed(other, table[b], chains[b], hash, |table|, b);
    assert SameAt(moved, BucketOf(other, chains, hash, k), k);
    Prepend(other, n, table[b], chains[b]);
    ReplaceBucket(other, other, table, chains, hash, moved, b, n, [n] + chains[b], k, moved[k := v]);
  }

  /** An empty table holds nothing. */
  lemma NothingLeft(nodes: seq<Node>, heads: seq<int>, chains: seq<seq<nat>>, hash: Key -> nat, m: map<Key, Handle>)
    requires Store(nodes, heads, chains, hash) && Holds(nodes, chains, hash, m)
    requires forall b :: 0 <= b < |chains| ==> chains[b] == []
    ensures m == map[]
  {
    forall k: Key
      ensures k !in m
    {
      assert SameAt(m, BucketOf(nodes, chains, hash, k), k);
    }
  }

  lemma {:induction false} TotalZero(chains: seq<seq<nat>>)
    ensures Total(chains) == 0 <==> forall b :: 0 <= b < |chains| ==> chains[b] == []
  {
    if chains != [] {
      var u := chains[..|chains| - 1];
      TotalZero(u);
      assert forall b :: 0 <= b < |u| ==> chains[b] == u[b];
    }
  }

  /** A table of empty buckets. */
  lemma FreshTable(nodes: seq<Node>, size: nat, hash: Key -> nat)
    ensures var table, chains := seq(size, _ => NULL), seq(size, _ => []);
      Store(nodes, table, chains, hash) && Holds(nodes, chains, hash, map[]) && Total(chains) == 0
  {
    var table, chains := seq(size, _ => NULL), seq(size, _ => []);
    TotalZero(chains);
  }

  class HashTable {
    const hash: Key -> nat
    var nodes: seq<Node>
    var table: seq<int>
    var size: nat
    var sizemask: nat
    var used: nat
    ghost var chains: seq<seq<nat>>
    ghost var contents: map<Key, Handle>

    ghost predicate Valid()
      reads this
    {
      && size == |table| && (size == 0 || (PowerOfTwo(size) && size >= 4))
      && sizemask == (if size == 0 then 0 else size - 1)
      && Store(nodes, table, chains, hash) && Holds(nodes, chains, hash, contents)
      && used == |contents| == Total(chains) && used <= size
    }

    constructor (h: Key -> nat)
      ensures Valid() && contents == map[] && size == 0 && hash == h
    {
      hash := h;
      nodes, table, size, sizemask, used := [], [], 0, 0, 0;
      chains, contents := [], map[];
    }

    /** The bucket of a key: its hash under the size mask of a power-of-two table. */
    function Index(key: Key): (b: nat)
      requires size > 0
      reads this
      ensures b < size
    {
      hash(key) % size
    }

    /** The node of a key, or the null pointer; and its place on its chain. */
    method Search(key: Key) returns (he: int, ghost i: nat)
      requires Valid() && size > 0
      ensures he == NULL <==> key !in contents
      ensures he != NULL ==>
        && i < |chains[Index(key)]| && he == chains[Index(key)][i]
        && 0 <= he < |nodes| && nodes[he].Live? && nodes[he].key == key && nodes[he].val == contents[key]
    {
      hide PowerOfTwo;
      var h := Index(key);
      ghost var chain := chains[h];
      assert Bucketed(nodes, table[h], chain, hash, |table|, h);
      assert SameAt(contents, BucketOf(nodes, chains, hash, key), key);
      he, i := table[h], 0;
      assert chain[0..] == chain;
      while he != NULL
        invariant i <= |chain| && Linked(nodes, he, chain[i..]) && UniqueKeys(nodes, chain[i..])
        invariant SameAt(Pairs(nodes, chain), Pairs(nodes, chain[i..]), key)
        decreases |chain| - i
      {
        if nodes[he].key == key {
          NodeKey(nodes, chain, he);
          return;
        }
        assert chain[i..][1..] == chain[i + 1..];
        he, i := nodes[he].next, i + 1;
      }
    }

    /** dictFind */
    method Find(key: Key) returns (he: int)
      requires Valid()
      ensures he == NULL <==> key !in contents
      ensures he != NULL ==> 0 <= he < |nodes| && nodes[he].Live? && nodes[he].key == key && nodes[he].val == contents[key]
    {
      if size == 0 {
        Empty();
        return NULL;
      }
      ghost var i;
      he, i := Search(key);
    }

    lemma Empty()
      requires Valid() && size == 0
      ensures contents == map[]
    {
      NothingLeft(nodes, table, chains, hash, contents);
    }

    /** dictExpand: moves every node to a table of the next power of two. */
    method Expand(newSize: nat) returns (ok: bool)
      requires Valid()
      modifies this
      ensures Valid() && contents == old(contents) && ok == (old(used) <= newSize)
      ensures ok ==> size >= newSize && size >= 4 && (size == 4 || size / 2 < newSize)
      ensures !ok ==> unchanged(this)
    {
      hide Store, Holds, Total;
      var realsize := NextPower(newSize);
      if used > newSize {
        return false;
      }
      var newTable: seq<int> := seq(realsize, _ => NULL);
      ghost var newChains: seq<seq<nat>> := seq(realsize, _ => []);
      FreshTable(nodes, realsize, hash);
      nodes, newTable, newChains := MoveAll(newTable, newChains);
      chains := newChains;
      table, size, sizemask, used := newTable, realsize, realsize - 1, used;
      ok := true;
    }

    /** The nodes with every chain of the table moved to a new table, and the new table. */
    method MoveAll(empty: seq<int>, ghost emptyChains: seq<seq<nat>>)
      returns (arena: seq<Node>, newTable: seq<int>, ghost newChains: seq<seq<nat>>)
      requires Valid() && empty != [] && Store(nodes, empty, emptyChains, hash) && Holds(nodes, emptyChains, hash, map[])
      requires Total(emptyChains) == 0
      ensures |newTable| == |empty| && Store(arena, newTable, newChains, hash) && Holds(arena, newChains, hash, contents)
      ensures Total(newChains) == used
    {
      hide Store, Holds, PowerOfTwo, Total;
      arena, newTable, newChains := nodes, empty, emptyChains;
      var i, left := 0, used;
      ghost var heads, rest, todo, moved: map<Key, Handle> := table, chains, contents, map[];
      StoreShape(nodes, table, chains, hash);
      while i < size && left > 0
        invariant i <= size == |heads| == |rest| && |newTable| == |empty|
        invariant Moving(arena, heads, rest, newTable, newChains, hash, todo, moved)
        invariant Joined(todo, moved, contents)
        invariant left == Total(rest) && Total(newChains) + left == used
        invariant forall j :: 0 <= j < i ==> rest[j] == []
        invariant forall j :: i <= j < size ==> heads[j] == table[j] && rest[j] == chains[j]
        decreases size - i
      {
        var he := table[i];
        HeadIs(arena, heads, rest, hash, i);
        while he != NULL
          invariant size == |heads| == |rest| && |newTable| == |empty| && he == heads[i]
          invariant he == NULL <==> rest[i] == []
          invariant Moving(arena, heads, rest, newTable, newChains, hash, todo, moved)
          invariant Joined(todo, moved, contents)
          invariant left == Total(rest) && Total(newChains) + left == used
          invariant forall j :: 0 <= j < i ==> rest[j] == []
          invariant forall j :: i < j < size ==> heads[j] == table[j] && rest[j] == chains[j]
          decreases |rest[i]|
        {
          MoveKeeps(arena, heads, rest, newTable, newChains, hash, todo, moved, i);
          var nextHe, key := arena[he].next, arena[he].key;
          var h := hash(key) % |newTable|;
          StoreShape(arena, newTable, newChains, hash);
          TotalUpdate(rest, i, rest[i][1..]);
          TotalUpdate(newChains, h, [he] + newChains[h]);
          todo, moved := todo - {key}, moved[key := arena[he].val];
          arena := arena[he := arena[he].(next := newTable[h])];
          newTable, newChains := newTable[h := he], newChains[h := [he] + newChains[h]];
          heads, rest := heads[i := nextHe], rest[i := rest[i][1..]];
          left := left - 1;
          he := nextHe;
          HeadIs(arena, heads, rest, hash, i);
        }
        i := i + 1;
      }
      TotalZero(rest);
      NothingLeft(arena, heads, rest, hash, todo);
      assert moved == contents;
    }

    /** _dictKeyIndex: the bucket for a new key, growing the table first when it is full. */
    method KeyIndex(key: Key) returns (index: int)
      requires Valid()
      modifies this
      ensures Valid() && contents == old(contents) && used < size
      ensures index == if key in contents then -1 else Index(key)
    {
      ExpandIfNeeded();
      var he, _ := Search(key);
      index := if he != NULL then -1 else Index(key);
    }

    method ExpandIfNeeded()
      requires Valid()
      modifies this
      ensures Valid() && contents == old(contents) && size > 0
      ensures used < size && size == if old(size) == 0 then 4 else if old(used) == old(size) then 2 * old(size) else old(size)
      ensures old(size > 0 && used != size) ==> unchanged(this)
    {
      if size == 0 {
        Empty();
        var ok := Expand(DICT_HT_INITIAL_SIZE);
        FourIsPower();
        PowersApart(4, size);
      } else if used == size {
        ghost var full := size;
        var ok := Expand(size * 2);
        DoublePower(full);
        PowersApart(full * 2, size);
      }
    }

    /** dictAdd: adds a key that is not there yet. */
    method Add(key: Key, val: Handle) returns (ok: bool)
      requires Valid()
      modifies this
      ensures Valid() && ok == (key !in old(contents))
      ensures contents == if ok then old(contents)[key := val] else old(contents)
    {
      hide Store, Holds, PowerOfTwo, Total;
      var index := KeyIndex(key);
      if index == -1 {
        return false;
      }
      StoreShape(nodes, table, chains, hash);
      AddKeeps(nodes, table, chains, hash, contents, key, val);
      TotalUpdate(chains, index, [|nodes|] + chains[index]);
      ghost var cs := chains[index := [|nodes|] + chains[index]];
      nodes, table := nodes + [Live(key, val, table[index])], table[index := |nodes|];
      used := used + 1;
      chains, contents := cs, contents[key := val];
      ok := true;
    }

    /** dictReplace: adds a key or updates its value, and says whether it was added. */
    method Replace(key: Key, val: Handle) returns (added: bool)
      requires Valid()
      modifies this
      ensures Valid() && added == (key !in old(contents)) && contents == old(contents)[key := val]
    {
      hide Store, Holds, PowerOfTwo, Total;
      added := Add(key, val);
      if added {
        return;
      }
      if size == 0 {
        Empty();
      }
      var entry, i := Search(key);
      SetKeeps(nodes, table, chains, hash, contents, entry, val);
      nodes := nodes[entry := nodes[entry].(val := val)];
      contents := contents[key := val];
    }

    /** dictDelete: unlinks a key's node, number `i` of its chain, and releases it. */
    method Delete(key: Key) returns (ok: bool, ghost i: nat)
      requires Valid()
      modifies this
      ensures Valid() && ok == (key in old(contents)) && contents == old(contents) - {key} && size == old(size)
      ensures !ok ==> chains == old(chains) && nodes == old(nodes)
      ensures ok ==> Dropped(old(nodes), old(chains), nodes, chains, old(Index(key)), i, key)
    {
      hide Store, Holds, PowerOfTwo, Total, Dropped;
      i := 0;
      if size == 0 {
        Empty();
        assert contents - {key} == contents;
        return false, 0;
      }
      var h := Index(key);
      StoreShape(nodes, table, chains, hash);
      var de, prevde := table[h], NULL;
      ghost var chain := chains[h];
      ChainAt(nodes, table, chains, hash, contents, key);
      assert chain[0..] == chain;
      while de != NULL
        invariant i <= |chain| && Linked(nodes, de, chain[i..]) && UniqueKeys(nodes, chain[i..])
        invariant SameAt(contents, Pairs(nodes, chain[i..]), key)
        invariant if i == 0 then prevde == NULL else prevde == chain[i - 1] && 0 <= prevde < |nodes| && nodes[prevde].Live?
        decreases |chain| - i
      {
        if nodes[de].key == key {
          RemoveNode(key, h, de, prevde, i);
          return true, i;
        }
        assert chain[i..][1..] == chain[i + 1..];
        prevde := de;
        de, i := nodes[de].next, i + 1;
      }
      assert contents - {key} == contents;
      ok := false;
    }

    method RemoveNode(key: Key, h: nat, de: nat, prevde: int, ghost i: nat)
      requires Valid() && size > 0 && h == Index(key) && h < |chains| && i < |chains[h]| && chains[h][i] == de
      requires de < |nodes| && nodes[de].Live? && nodes[de].key == key && key in contents
      requires if i == 0 then prevde == NULL else prevde == chains[h][i - 1] && 0 <= prevde < |nodes| && nodes[prevde].Live?
      modifies this
      ensures Valid() && contents == old(contents) - {key} && size == old(size)
      ensures Dropped(old(nodes), old(chains), nodes, chains, h, i, key)
    {
      hide Store, Holds, PowerOfTwo, Total;
      StoreShape(nodes, table, chains, hash);
      DeleteKeeps(nodes, table, chains, hash, contents, h, i, key);
      TotalUpdate(chains, h, Drop(chains[h], i));
      RemoveOne(contents, key);
      ghost var cs, fewer := chains[h := Drop(chains[h], i)], contents - {key};
      var next := nodes[de].next;
      var linked := nodes;
      if prevde != NULL {
        linked := linked[prevde := linked[prevde].(next := next)];
      } else {
        table := table[h := next];
      }
      nodes := linked[de := Freed];
      used := used - 1;
      chains, contents := cs, fewer;
    }
  }

  /** One node left its chain and was released; every other node keeps its key. */
  ghost predicate Dropped(nodes: seq<Node>, chains: seq<seq<nat>>, other: seq<Node>, cs: seq<seq<nat>>, b: nat, i: nat, key: Key) {
    && b < |chains| && i < |chains[b]| && chains[b][i] < |nodes| == |other|
    && nodes[chains[b][i]].Live? && nodes[chains[b][i]].key == key
    && cs == chains[b := Drop(chains[b], i)]
    && forall n :: 0 <= n < |nodes| && n != chains[b][i] && nodes[n].Live? ==> other[n].Live? && other[n].key == nodes[n].key
  }

  lemma RemoveOne(m: map<Key, Handle>, k: Key)
    requires k in m
    ensures |m - {k}| == |m| - 1
  {
    assert m == (m - {k})[k := m[k]];
  }

  lemma ChainAt(nodes: seq<Node>, table: seq<int>, chains: seq<seq<nat>>, hash: Key -> nat, m: map<Key, Handle>, k: Key)
    requires Store(nodes, table, chains, hash) && Holds(nodes, chains, hash, m) && table != []
    ensures var b := hash(k) % |table|;
      && b < |chains| && Linked(nodes, table[b], chains[b]) && UniqueKeys(nodes, chains[b])
      && SameAt(m, Pairs(nodes, chains[b]), k)
  {
    var b := hash(k) % |table|;
    assert Bucketed(nodes, table[b], chains[b], hash, |table|, b);
    assert SameAt(m, BucketOf(nodes, chains, hash, k), k);
  }

  /** Two maps with no common key that together are a third. */
  ghost predicate Joined(left: map<Key, Handle>, moved: map<Key, Handle>, all: map<Key, Handle>) {
    && (forall k :: k in all <==> k in left || k in moved)
    && (forall k :: k in left ==> k !in moved && all[k] == left[k])
    && (forall k :: k in moved ==> all[k] == moved[k])
  }

  lemma StoreShape(nodes: seq<Node>, table: seq<int>, chains: seq<seq<nat>>, hash: Key -> nat)
    requires Store(nodes, table, chains, hash)
    ensures |table| == |chains|
  {
  }

  lemma HeadIs(nodes: seq<Node>, heads: seq<int>, chains: seq<seq<nat>>, hash: Key -> nat, i: nat)
    requires Store(nodes, heads, chains, hash) && i < |heads|
    ensures i < |chains| && (heads[i] == NULL <==> chains[i] == [])
    ensures heads[i] != NULL ==> heads[i] == chains[i][0] && 0 <= heads[i] < |nodes| && nodes[heads[i]].Live?
  {
    assert Bucketed(nodes, heads[i], chains[i], hash, |heads|, i);
  }

  /** The nodes of all buckets from `b` on, in order. */
  ghost function NodesFrom(chains: seq<seq<nat>>, b: nat): seq<nat>
    decreases |chains| - b
  {
    if b >= |chains| then [] else chains[b] + NodesFrom(chains, b + 1)
  }

  ghost function KeyAt(nodes: seq<Node>, n: nat): Key {
    if n < |nodes| && nodes[n].Live? then nodes[n].key else []
  }

  ghost function KeysOf(nodes: seq<Node>, ns: seq<nat>): seq<Key> {
    seq(|ns|, i requires 0 <= i < |ns| => KeyAt(nodes, ns[i]))
  }

  ghost predicate IsSuffix(rest: seq<nat>, chain: seq<nat>) {
    |rest| <= |chain| && rest == chain[|chain| - |rest|..]
  }

  /** An iterator keeps the node it returned and that node's successor, saved before the caller can delete the node. */
  class Iterator {
    const ht: HashTable
    var index: int
    var entry: int
    var nextEntry: int
    ghost var rest: seq<nat>

    constructor (table: HashTable)
      ensures ht == table && index == -1 && entry == NULL && nextEntry == NULL && rest == []
    {
      ht, index, entry, nextEntry, rest := table, -1, NULL, NULL, [];
    }

    ghost predicate Valid()
      reads this, ht
    {
      ht.Valid() && AtPosition(ht.nodes, ht.chains, index, entry, nextEntry, rest)
    }

    /** The nodes still to be visited. */
    ghost function Todo(): seq<nat>
      requires Valid()
      reads this, ht
    {
      rest + NodesFrom(ht.chains, index + 1)
    }

    /** dictNext */
    method Next() returns (e: int)
      requires Valid()
      modifies this
      ensures Valid() && e == entry
      ensures e == NULL <==> old(Todo()) == []
      ensures e == NULL ==> Todo() == []
      ensures e != NULL ==>
        && 0 <= e < |ht.nodes| && ht.nodes[e].Live? && 0 <= index < |ht.chains|
        && old(Todo()) == [e] + Todo() && IsSuffix([e] + rest, ht.chains[index])
    {
      hide Store, Holds, PowerOfTwo, Total, NodesFrom, Linked;
      var i, next;
      ghost var suffix;
      i, e, next, suffix := Step(ht, index, entry, nextEntry, rest);
      index, entry, nextEntry, rest := i, e, next, suffix;
    }
  }

  /** The saved successor heads the rest of the current chain; the returned node itself is never followed. */
  ghost predicate AtPosition(nodes: seq<Node>, chains: seq<seq<nat>>, index: int, entry: int, next: int, rest: seq<nat>) {
    && -1 <= index && (entry == NULL ==> rest == [])
    && (entry != NULL ==> 0 <= index < |chains| && Linked(nodes, next, rest) && IsSuffix(rest, chains[index]))
  }

  /** A position from which `todo` is still to be visited. */
  ghost predicate Ahead(nodes: seq<Node>, chains: seq<seq<nat>>, index: int, entry: int, next: int, rest: seq<nat>, todo: seq<nat>) {
    AtPosition(nodes, chains, index, entry, next, rest) && todo == rest + NodesFrom(chains, index + 1)
  }

  /** A position that has just yielded the first node of `todo`. */
  ghost predicate Yields(nodes: seq<Node>, chains: seq<seq<nat>>, index: int, entry: int, next: int, rest: seq<nat>, todo: seq<nat>) {
    && 0 <= entry < |nodes| && nodes[entry].Live? && 0 <= index < |chains|
    && AtPosition(nodes, chains, index, entry, next, rest)
    && todo == [entry] + (rest + NodesFrom(chains, index + 1)) && IsSuffix([entry] + rest, chains[index])
  }

  /** Entering the next bucket. */
  lemma Enter(nodes: seq<Node>, table: seq<int>, chains: seq<seq<nat>>, hash: Key -> nat, index: int, next: int,
              rest: seq<nat>, todo: seq<nat>)
    requires Store(nodes, table, chains, hash) && Ahead(nodes, chains, index, NULL, next, rest, todo)
    ensures rest == [] && |chains| == |table|
    ensures index + 1 >= |table| ==> todo == [] && Ahead(nodes, chains, index + 1, NULL, next, [], [])
    ensures index + 1 < |table| && table[index + 1] == NULL ==> Ahead(nodes, chains, index + 1, NULL, next, chains[index + 1], todo)
    ensures index + 1 < |table| && table[index + 1] != NULL ==>
      var e, chain := table[index + 1], chains[index + 1];
      && chain != [] && 0 <= e < |nodes| && nodes[e].Live?
      && Yields(nodes, chains, index + 1, e, nodes[e].next, chain[1..], todo)
  {
    hide UniqueKeys, Pairs;
    var i := index + 1;
    if i < |table| {
      assert Bucketed(nodes, table[i], chains[i], hash, |table|, i);
      if table[i] != NULL {
        var chain := chains[i];
        SuffixTail(chain, chain);
        assert chain == [chain[0]] + chain[1..];
      }
    }
  }

  /** Going on along the chain. */
  lemma GoOn(nodes: seq<Node>, chains: seq<seq<nat>>, index: int, entry: int, next: int, rest: seq<nat>, todo: seq<nat>)
    requires Ahead(nodes, chains, index, entry, next, rest, todo) && entry != NULL
    ensures 0 <= index < |chains|
    ensures next == NULL ==> Ahead(nodes, chains, index, NULL, next, rest, todo)
    ensures next != NULL ==>
      && rest != [] && 0 <= next < |nodes| && nodes[next].Live?
      && Yields(nodes, chains, index, next, nodes[next].next, rest[1..], todo)
  {
    if next != NULL {
      SuffixTail(rest, chains[index]);
      assert rest == [rest[0]] + rest[1..];
    }
  }

  /** The search for the next node: along the current chain, then through the following buckets. */
  method Step(ht: HashTable, index0: int, entry0: int, next0: int, ghost rest0: seq<nat>)
    returns (index: int, entry: int, next: int, ghost rest: seq<nat>)
    requires ht.Valid() && AtPosition(ht.nodes, ht.chains, index0, entry0, next0, rest0)
    ensures var todo := rest0 + NodesFrom(ht.chains, index0 + 1);
      if entry == NULL then todo == [] && Ahead(ht.nodes, ht.chains, index, entry, next, rest, [])
      else Yields(ht.nodes, ht.chains, index, entry, next, rest, todo)
  {
    hide Store, Holds, PowerOfTwo, Total, Ahead, Yields, NodesFrom;
    index, entry, next, rest := index0, entry0, next0, rest0;
    ghost var todo := rest + NodesFrom(ht.chains, index + 1);
    StoreShape(ht.nodes, ht.table, ht.chains, ht.hash);
    Begin(ht.nodes, ht.chains, index, entry, next, rest, todo);
    while true
      invariant Ahead(ht.nodes, ht.chains, index, entry, next, rest, todo)
      decreases if index >= ht.size then 0 else 2 * (ht.size - index) + if entry == NULL then 0 else 1
    {
      if entry == NULL {
        Enter(ht.nodes, ht.table, ht.chains, ht.hash, index, next, rest, todo);
        index := index + 1;
        if index >= ht.size {
          return;
        }
        entry, rest := ht.table[index], ht.chains[index];
      } else {
        GoOn(ht.nodes, ht.chains, index, entry, next, rest, todo);
        entry := next;
      }
      if entry != NULL {
        next, rest := ht.nodes[entry].next, rest[1..];
        return;
      }
    }
  }

  lemma Begin(nodes: seq<Node>, chains: seq<seq<nat>>, index: int, entry: int, next: int, rest: seq<nat>, todo: seq<nat>)
    requires AtPosition(nodes, chains, index, entry, next, rest) && todo == rest + NodesFrom(chains, index + 1)
    ensures Ahead(nodes, chains, index, entry, next, rest, todo)
  {
  }

  lemma SuffixTail(rest: seq<nat>, chain: seq<nat>)
    requires IsSuffix(rest, chain) && rest != []
    ensures IsSuffix(rest[1..], chain)
  {
    assert chain[|chain| - |rest|..][1..] == chain[|chain| - |rest| + 1..];
  }

  lemma {:induction false} NodesFromNode(nodes: seq<Node>, table: seq<int>, chains: seq<seq<nat>>, hash: Key -> nat, b: nat, i: nat)
    requires Store(nodes, table, chains, hash) && i < |NodesFrom(chains, b)|
    ensures var n := NodesFrom(chains, b)[i];
      n < |nodes| && nodes[n].Live? && b <= hash(nodes[n].key) % |table| < |chains| && n in chains[hash(nodes[n].key) % |table|]
    decreases |chains| - b
  {
    hide Linked, Pairs;
    if i < |chains[b]| {
      ChainNode(nodes, table, chains, hash, b, i);
    } else {
      NodesFromNode(nodes, table, chains, hash, b + 1, i - |chains[b]|);
    }
  }

  lemma {:induction false} ChainNode(nodes: seq<Node>, table: seq<int>, chains: seq<seq<nat>>, hash: Key -> nat, b: nat, i: nat)
    requires Store(nodes, table, chains, hash) && b < |chains| && i < |chains[b]|
    ensures var n := chains[b][i];
      n < |nodes| && nodes[n].Live? && hash(nodes[n].key) % |table| == b && nodes[n].key in Pairs(nodes, chains[b])
  {
    assert Bucketed(nodes, table[b], chains[b], hash, |table|, b);
    NodeKey(nodes, chains[b], chains[b][i]);
  }

  /** A key stands at one place of one chain only. */
  lemma {:induction false} OnePlace(nodes: seq<Node>, table: seq<int>, chains: seq<seq<nat>>, hash: Key -> nat, b: nat, i: nat, c: nat, j: nat)
    requires Store(nodes, table, chains, hash) && b < |chains| && i < |chains[b]| && c < |chains| && j < |chains[c]|
    requires KeyAt(nodes, chains[b][i]) == KeyAt(nodes, chains[c][j])
    ensures b == c && i == j
  {
    ChainNode(nodes, table, chains, hash, b, i);
    ChainNode(nodes, table, chains, hash, c, j);
    assert Bucketed(nodes, table[b], chains[b], hash, |table|, b);
    if i < j {
      DifferentKeys(nodes, chains[b], i, j);
    } else if j < i {
      DifferentKeys(nodes, chains[b], j, i);
    }
  }

  lemma {:induction false} DifferentKeys(nodes: seq<Node>, chain: seq<nat>, i: nat, j: nat)
    requires UniqueKeys(nodes, chain) && i < j < |chain|
    ensures KeyAt(nodes, chain[i]) != KeyAt(nodes, chain[j])
    decreases i
  {
    var rest := chain[1..];
    assert chain[j] == rest[j - 1];
    NodeKey(nodes, rest, chain[j]);
    if i > 0 {
      assert chain[i] == rest[i - 1];
      DifferentKeys(nodes, rest, i - 1, j - 1);
    }
  }

  lemma {:induction false} FarBuckets(chains: seq<seq<nat>>, cs: seq<seq<nat>>, b: nat)
    requires |chains| == |cs| && forall c :: b <= c < |chains| ==> cs[c] == chains[c]
    ensures NodesFrom(cs, b) == NodesFrom(chains, b)
    decreases |chains| - b
  {
    if b < |chains| {
      FarBuckets(chains, cs, b + 1);
    }
  }

  /** The iterator outlives the deletion of the node it returned, and goes on to the same nodes. */
  lemma {:induction false} AfterDelete(nodes: seq<Node>, table: seq<int>, chains: seq<seq<nat>>, hash: Key -> nat,
                    other: seq<Node>, t: seq<int>, cs: seq<seq<nat>>,
                    index: nat, entry: nat, next: int, rest: seq<nat>, b: nat, i: nat, key: Key)
    requires Store(nodes, table, chains, hash) && Store(other, t, cs, hash) && |t| == |table|
    requires AtPosition(nodes, chains, index, entry, next, rest) && index < |chains| && IsSuffix([entry] + rest, chains[index])
    requires KeyAt(nodes, entry) == key && Dropped(nodes, chains, other, cs, b, i, key)
    requires Linked(nodes, entry, [entry] + rest)
    ensures AtPosition(other, cs, index, entry, next, rest)
    ensures NodesFrom(cs, index + 1) == NodesFrom(chains, index + 1)
    ensures KeysOf(other, rest + NodesFrom(cs, index + 1)) == KeysOf(nodes, rest + NodesFrom(chains, index + 1))
  {
    hide Store, Linked, UniqueKeys, Pairs, Dropped, NodesFrom;
    var chain, p := chains[index], |chains[index]| - |rest| - 1;
    assert chain[p..] == [entry] + rest && chain[p] == entry && chain[p + 1..] == rest;
    DroppedAt(nodes, chains, other, cs, b, i, key);
    OnePlace(nodes, table, chains, hash, b, i, index, p);
    assert cs[index] == chain[..p] + rest;
    FarBuckets(chains, cs, index + 1);
    RestLinked(nodes, other, t, cs, hash, index, p, next, rest);
    var todo := rest + NodesFrom(chains, index + 1);
    forall j | 0 <= j < |todo|
      ensures KeyAt(other, todo[j]) == KeyAt(nodes, todo[j])
    {
      LaterNode(nodes, table, chains, hash, index, p, rest, j);
      KeyKept(nodes, chains, other, cs, b, i, key, todo[j]);
    }
  }

  lemma DroppedAt(nodes: seq<Node>, chains: seq<seq<nat>>, other: seq<Node>, cs: seq<seq<nat>>, b: nat, i: nat, key: Key)
    requires Dropped(nodes, chains, other, cs, b, i, key)
    ensures b < |chains| && i < |chains[b]| && KeyAt(nodes, chains[b][i]) == key && cs == chains[b := Drop(chains[b], i)]
  {
  }

  lemma KeyKept(nodes: seq<Node>, chains: seq<seq<nat>>, other: seq<Node>, cs: seq<seq<nat>>, b: nat, i: nat, key: Key, n: nat)
    requires Dropped(nodes, chains, other, cs, b, i, key) && n < |nodes| && nodes[n].Live? && n != chains[b][i]
    ensures KeyAt(other, n) == KeyAt(nodes, n)
  {
  }

  lemma RestLinked(nodes: seq<Node>, other: seq<Node>, t: seq<int>, cs: seq<seq<nat>>, hash: Key -> nat,
                   index: nat, p: nat, next: int, rest: seq<nat>)
    requires Store(other, t, cs, hash) && index < |cs| && p <= |cs[index]| && cs[index][p..] == rest
    requires Linked(nodes, next, rest)
    ensures Linked(other, next, rest)
  {
    hide UniqueKeys, Pairs;
    if rest != [] {
      assert Bucketed(other, t[index], cs[index], hash, |t|, index);
      Follow(other, t[index], cs[index], p);
    }
  }

  /** The nodes still to come are live and differ from the one at position `p` of the current chain. */
  lemma LaterNode(nodes: seq<Node>, table: seq<int>, chains: seq<seq<nat>>, hash: Key -> nat, index: nat, p: nat, rest: seq<nat>, j: nat)
    requires Store(nodes, table, chains, hash) && index < |chains| && p < |chains[index]| && rest == chains[index][p + 1..]
    requires j < |rest + NodesFrom(chains, index + 1)|
    ensures var n := (rest + NodesFrom(chains, index + 1))[j];
      n < |nodes| && nodes[n].Live? && n != chains[index][p]
  {
    hide UniqueKeys, Pairs, Linked, NodesFrom;
    ChainNode(nodes, table, chains, hash, index, p);
    if j < |rest| {
      ChainNode(nodes, table, chains, hash, index, p + 1 + j);
      assert Bucketed(nodes, table[index], chains[index], hash, |table|, index);
      NoRepeats(nodes, chains[index], p, p + 1 + j);
    } else {
      NodesFromNode(nodes, table, chains, hash, index + 1, j - |rest|);
    }
  }

  ghost predicate Distinct(ks: seq<Key>) {
    forall i, j :: 0 <= i < j < |ks| ==> ks[i] != ks[j]
  }

  /** Walking all buckets meets every key exactly once. */
  lemma {:induction false} AllKeysOnce(nodes: seq<Node>, table: seq<int>, chains: seq<seq<nat>>, hash: Key -> nat, b: nat)
    requires Store(nodes, table, chains, hash)
    ensures Distinct(KeysOf(nodes, NodesFrom(chains, b)))
    decreases |chains| - b
  {
    hide Store, UniqueKeys, Pairs, Linked;
    if b < |chains| {
      AllKeysOnce(nodes, table, chains, hash, b + 1);
      var all, n := NodesFrom(chains, b), |chains[b]|;
      forall i, j | 0 <= i < j < |all|
        ensures KeyAt(nodes, all[i]) != KeyAt(nodes, all[j])
      {
        if i < n {
          TwoNodes(nodes, table, chains, hash, b, i, j);
        } else {
          var later := NodesFrom(chains, b + 1);
          assert all[i] == later[i - n] && all[j] == later[j - n];
          assert KeysOf(nodes, later)[i - n] != KeysOf(nodes, later)[j - n];
        }
      }
    }
  }

  lemma TwoNodes(nodes: seq<Node>, table: seq<int>, chains: seq<seq<nat>>, hash: Key -> nat, b: nat, i: nat, j: nat)
    requires Store(nodes, table, chains, hash) && b < |chains| && i < |chains[b]| && i < j < |NodesFrom(chains, b)|
    ensures KeyAt(nodes, NodesFrom(chains, b)[i]) != KeyAt(nodes, NodesFrom(chains, b)[j])
  {
    hide UniqueKeys, Pairs, Linked;
    var first := chains[b];
    ChainNode(nodes, table, chains, hash, b, i);
    if j < |first| {
      assert Bucketed(nodes, table[b], first, hash, |table|, b);
      DifferentKeys(nodes, first, i, j);
    } else {
      NodesFromNode(nodes, table, chains, hash, b + 1, j - |first|);
    }
  }

  lemma {:induction false} ChainInNodes(chains: seq<seq<nat>>, from: nat, b: nat, i: nat) returns (j: nat)
    requires from <= b < |chains| && i < |chains[b]|
    ensures j < |NodesFrom(chains, from)| && NodesFrom(chains, from)[j] == chains[b][i]
    decreases b - from
  {
    if from == b {
      j := i;
    } else {
      var k := ChainInNodes(chains, from + 1, b, i);
      j := |chains[from]| + k;
    }
  }

  /** The walk meets exactly the table's keys. */
  lemma {:induction false} AllKeys(nodes: seq<Node>, table: seq<int>, chains: seq<seq<nat>>, hash: Key -> nat, m: map<Key, Handle>, k: Key)
    requires Store(nodes, table, chains, hash) && Holds(nodes, chains, hash, m)
    ensures k in m <==> k in KeysOf(nodes, NodesFrom(chains, 0))
  {
    var ks := KeysOf(nodes, NodesFrom(chains, 0));
    assert SameAt(m, BucketOf(nodes, chains, hash, k), k);
    if k in m {
      var b := hash(k) % |chains|;
      assert Bucketed(nodes, table[b], chains[b], hash, |table|, b);
      var i := KeyNode(nodes, chains[b], k);
      var j := ChainInNodes(chains, 0, b, i);
      assert ks[j] == k;
    }
    if k in ks {
      var j :| 0 <= j < |ks| && ks[j] == k;
      NodesFromNode(nodes, table, chains, hash, 0, j);
      var n, b := NodesFrom(chains, 0)[j], hash(k) % |table|;
      assert Bucketed(nodes, table[b], chains[b], hash, |table|, b);
      NodeKey(nodes, chains[b], n);
    }
  }

  /** What remains of a map after the dropped ones among the visited keys are deleted. */
  ghost predicate Remains(m: map<Key, Handle>, now: map<Key, Handle>, visited: seq<Key>, drop: Key -> bool) {
    forall k :: (k in now <==> k in m && !(k in visited && drop(k))) && (k in now ==> now[k] == m[k])
  }

  lemma RemainsNext(m: map<Key, Handle>, now: map<Key, Handle>, visited: seq<Key>, drop: Key -> bool, key: Key)
    requires Remains(m, now, visited, drop)
    ensures Remains(m, if drop(key) then now - {key} else now, visited + [key], drop)
  {
  }

  lemma KeysOfCons(nodes: seq<Node>, n: nat, ns: seq<nat>)
    ensures KeysOf(nodes, [n] + ns) == [KeyAt(nodes, n)] + KeysOf(nodes, ns)
  {
  }

  /** One round of a caller's loop: takes the next entry, and deletes it if it is to be dropped. */
  method VisitOne(iter: Iterator, d: HashTable, drop: Key -> bool) returns (key: Option<Key>)
    requires iter.Valid() && iter.ht == d
    modifies iter, d
    ensures iter.Valid() && (key.None? <==> old(iter.Todo()) == [])
    ensures key.None? ==> d.contents == old(d.contents) && iter.Todo() == []
    ensures key.Some? ==>
      && old(KeysOf(d.nodes, iter.Todo())) == [key.value] + KeysOf(d.nodes, iter.Todo())
      && d.contents == if drop(key.value) then old(d.contents) - {key.value} else old(d.contents)
  {
    hide Store, Holds, PowerOfTwo, Total, NodesFrom, KeysOf, Dropped, AtPosition;
    ghost var todo := iter.Todo();
    var e := iter.Next();
    if e == NULL {
      return None;
    }
    key := Some(d.nodes[e].key);
    KeysOfCons(d.nodes, e, iter.Todo());
    if drop(key.value) {
      ghost var nodes, table, chains := d.nodes, d.table, d.chains;
      Position(d.nodes, d.table, d.chains, d.hash, d.contents, iter.index, e, iter.nextEntry, iter.rest);
      var ok, i := d.Delete(key.value);
      AfterDelete(nodes, table, chains, d.hash, d.nodes, d.table, d.chains,
                  iter.index, e, iter.nextEntry, iter.rest, d.hash(key.value) % |table|, i, key.value);
    }
  }

  /** The returned node is on its chain, so its key is in the table. */
  lemma {:induction false} Position(nodes: seq<Node>, table: seq<int>, chains: seq<seq<nat>>, hash: Key -> nat, m: map<Key, Handle>,
                 index: nat, entry: nat, next: int, rest: seq<nat>)
    requires Store(nodes, table, chains, hash) && Holds(nodes, chains, hash, m)
    requires AtPosition(nodes, chains, index, entry, next, rest) && index < |chains| && IsSuffix([entry] + rest, chains[index])
    ensures entry < |nodes| && nodes[entry].Live? && nodes[entry].key in m
    ensures Linked(nodes, entry, [entry] + rest)
  {
    var chain, p := chains[index], |chains[index]| - |rest| - 1;
    assert chain[p..] == [entry] + rest && chain[p] == entry;
    ChainNode(nodes, table, chains, hash, index, p);
    assert Bucketed(nodes, table[index], chain, hash, |table|, index);
    Follow(nodes, table[index], chain, p);
    assert SameAt(m, BucketOf(nodes, chains, hash, nodes[entry].key), nodes[entry].key);
  }

  /**
   * A caller's loop that deletes some of the entries it is given: it is given
   * every key exactly once, and what it does not delete stays.
   */
  method Sweep(d: HashTable, drop: Key -> bool) returns (visited: seq<Key>)
    requires d.Valid()
    modifies d
    ensures d.Valid() && Distinct(visited) && forall k :: k in visited <==> k in old(d.contents)
    ensures d.contents == map k | k in old(d.contents) && !drop(k) :: old(d.contents)[k]
  {
    hide Store, Holds, PowerOfTwo, Total, NodesFrom, KeysOf, Distinct, Remains, AtPosition;
    var iter := new Iterator(d);
    Beginning(d.nodes, d.chains);
    visited := [];
    ghost var order := KeysOf(d.nodes, iter.Todo());
    ghost var m := d.contents;
    AllKeysOnce(d.nodes, d.table, d.chains, d.hash, 0);
    WalkOrder(d.nodes, d.table, d.chains, d.hash, m, drop);
    var key := Some([]);
    ghost var ahead := order;
    while key.Some?
      invariant iter.ht == d && iter.Valid() && fresh(iter)
      invariant order == visited + ahead && ahead == KeysOf(d.nodes, iter.Todo())
      invariant Remains(m, d.contents, visited, drop)
      invariant key.None? ==> ahead == []
      decreases |ahead|, if key.Some? then 1 else 0
    {
      ghost var now := d.contents;
      NoKeys(d.nodes, iter.Todo());
      key := VisitOne(iter, d, drop);
      NoKeys(d.nodes, iter.Todo());
      if key.Some? {
        RemainsNext(m, now, visited, drop, key.value);
        ahead := ahead[1..];
        Regroup(visited, [key.value], ahead);
        visited := visited + [key.value];
      }
    }
    assert visited == order;
    RemainsAll(m, d.contents, visited, drop);
  }

  lemma Beginning(nodes: seq<Node>, chains: seq<seq<nat>>)
    ensures AtPosition(nodes, chains, -1, NULL, NULL, []) && [] + NodesFrom(chains, 0) == NodesFrom(chains, 0)
  {
  }

  lemma WalkOrder(nodes: seq<Node>, table: seq<int>, chains: seq<seq<nat>>, hash: Key -> nat, m: map<Key, Handle>, drop: Key -> bool)
    requires Store(nodes, table, chains, hash) && Holds(nodes, chains, hash, m)
    ensures forall k :: k in m <==> k in KeysOf(nodes, NodesFrom(chains, 0))
    ensures Remains(m, m, [], drop)
  {
    hide Store, Holds, NodesFrom, KeysOf;
    forall k: Key
      ensures k in m <==> k in KeysOf(nodes, NodesFrom(chains, 0))
    {
      AllKeys(nodes, table, chains, hash, m, k);
    }
  }

  lemma RemainsAll(m: map<Key, Handle>, now: map<Key, Handle>, visited: seq<Key>, drop: Key -> bool)
    requires Remains(m, now, visited, drop) && forall k :: k in m <==> k in visited
    ensures now == map k | k in m && !drop(k) :: m[k]
  {
  }

  lemma NoKeys(nodes: seq<Node>, ns: seq<nat>)
    ensures |KeysOf(nodes, ns)| == |ns|
  {
  }
}
