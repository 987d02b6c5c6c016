/** The slot-to-node table: rebuilding it from the nodes' slot ranges, and handing connections over to the new nodes. */
module SlotMap {
  import opened Bytes

  const VALKEYCLUSTER_SLOTS := 16384

  datatype Role = Primary | Replica | Unknown

  datatype Range = Range(start: nat, end: nat)

  datatype Event = SlotmapUpdated | Ready

  class Connection {
    constructor () {}
  }

  class AsyncConnection {
    var data: ClusterNode?

    constructor (n: ClusterNode?)
      ensures data == n
    {
      data := n;
    }
  }

  class ClusterNode {
    const addr: seq<Byte>
    const role: Role
    const slots: seq<Range>
    var con: Connection?
    var acon: AsyncConnection?

    constructor (a: seq<Byte>, r: Role, s: seq<Range>)
      ensures addr == a && role == r && slots == s && con == null && acon == null
    {
      addr, role, slots, con, acon := a, r, s, null, null;
    }
  }

  predicate ValidRange(r: Range) {
    r.start <= r.end < VALKEYCLUSTER_SLOTS
  }

  predicate Overlap(a: Range, b: Range) {
    a.start <= b.end && b.start <= a.end
  }

  /** A slot range together with the node that claims it. */
  datatype Claim = Claim(node: ClusterNode, range: Range)

  function ClaimsOf(n: ClusterNode): seq<Claim> {
    seq(|n.slots|, i requires 0 <= i < |n.slots| => Claim(n, n.slots[i]))
  }

  function AllClaims(nodes: seq<ClusterNode>): seq<Claim> {
    if nodes == [] then [] else AllClaims(nodes[..|nodes| - 1]) + ClaimsOf(nodes[|nodes| - 1])
  }

  /** Valid ranges, no two of which share a slot. */
  ghost predicate Consistent(claims: seq<Claim>) {
    && (forall i :: 0 <= i < |claims| ==> ValidRange(claims[i].range))
    && forall i, j :: 0 <= i < j < |claims| ==> !Overlap(claims[i].range, claims[j].range)
  }

  /** Whether a new node map is accepted. */
  ghost predicate Acceptable(nodes: seq<ClusterNode>) {
    (forall i :: 0 <= i < |nodes| ==> nodes[i].role == Primary) && Consistent(AllClaims(nodes))
  }

  ghost predicate CoveredBy(n: ClusterNode, s: nat) {
    exists i :: 0 <= i < |n.slots| && n.slots[i].start <= s <= n.slots[i].end
  }

  /** The node whose claim covers a slot. */
  function Owner(claims: seq<Claim>, s: nat): ClusterNode? {
    if claims == [] then null
    else
      var c := claims[|claims| - 1];
      if c.range.start <= s <= c.range.end then c.node else Owner(claims[..|claims| - 1], s)
  }

  /** A slot has an owner exactly when a claim covers it. */
  lemma {:induction false} OwnerCovers(claims: seq<Claim>, s: nat)
    ensures Owner(claims, s) != null ==>
      exists i :: 0 <= i < |claims| && claims[i].range.start <= s <= claims[i].range.end && claims[i].node == Owner(claims, s)
    ensures Owner(claims, s) == null ==>
      forall i :: 0 <= i < |claims| ==> !(claims[i].range.start <= s <= claims[i].range.end)
  {
    if claims != [] {
      var init := claims[..|claims| - 1];
      OwnerCovers(init, s);
      assert forall i :: 0 <= i < |init| ==> init[i] == claims[i];
    }
  }

  lemma NoOverlap(claims: seq<Claim>, i: nat, j: nat)
    requires Consistent(claims) && i < |claims| && j < |claims|
    ensures i != j ==> !Overlap(claims[i].range, claims[j].range)
  {
  }

  /** With disjoint claims the covering claim decides the owner. */
  lemma OwnerIs(claims: seq<Claim>, s: nat, i: nat)
    requires Consistent(claims) && i < |claims| && claims[i].range.start <= s <= claims[i].range.end
    ensures Owner(claims, s) == claims[i].node
  {
    OwnerCovers(claims, s);
    if Owner(claims, s) != null {
      var j :| 0 <= j < |claims| && claims[j].range.start <= s <= claims[j].range.end && claims[j].node == Owner(claims, s);
      NoOverlap(claims, i, j);
    }
  }

  lemma {:induction false} ClaimAt(nodes: seq<ClusterNode>, i: nat, j: nat) returns (k: nat)
    requires i < |nodes| && j < |nodes[i].slots|
    ensures k < |AllClaims(nodes)| && AllClaims(nodes)[k] == Claim(nodes[i], nodes[i].slots[j])
  {
    var init := nodes[..|nodes| - 1];
    if i == |init| {
      k := |AllClaims(init)| + j;
    } else {
      k := ClaimAt(init, i, j);
    }
  }

  lemma {:induction false} ClaimFrom(nodes: seq<ClusterNode>, k: nat) returns (i: nat, j: nat)
    requires k < |AllClaims(nodes)|
    ensures i < |nodes| && j < |nodes[i].slots| && AllClaims(nodes)[k] == Claim(nodes[i], nodes[i].slots[j])
  {
    var init := nodes[..|nodes| - 1];
    if k < |AllClaims(init)| {
      i, j := ClaimFrom(init, k);
    } else {
      i, j := |init|, k - |AllClaims(init)|;
    }
  }

  /** In an acceptable node map, the table built from the claims says exactly who covers what. */
  lemma TableMeaning(nodes: seq<ClusterNode>, s: nat, n: ClusterNode)
    requires Acceptable(nodes) && n in nodes
    ensures Owner(AllClaims(nodes), s) == n <==> CoveredBy(n, s)
  {
    var claims := AllClaims(nodes);
    if CoveredBy(n, s) {
      var j :| 0 <= j < |n.slots| && n.slots[j].start <= s <= n.slots[j].end;
      var i :| 0 <= i < |nodes| && nodes[i] == n;
      var k := ClaimAt(nodes, i, j);
      OwnerIs(claims, s, k);
    } else if Owner(claims, s) == n {
      OwnerCovers(claims, s);
      var k :| 0 <= k < |claims| && claims[k].range.start <= s <= claims[k].range.end && claims[k].node == n;
      var i, j := ClaimFrom(nodes, k);
    }
  }

  lemma OwnerIsNode(nodes: seq<ClusterNode>, s: nat)
    ensures Owner(AllClaims(nodes), s) != null ==> Owner(AllClaims(nodes), s) in nodes
  {
    var claims := AllClaims(nodes);
    OwnerCovers(claims, s);
    if Owner(claims, s) != null {
      var k :| 0 <= k < |claims| && claims[k].range.start <= s <= claims[k].range.end && claims[k].node == Owner(claims, s);
      var i, j := ClaimFrom(nodes, k);
    }
  }

  lemma ConsistentSnoc(claims: seq<Claim>, c: Claim)
    requires Consistent(claims) && ValidRange(c.range)
    requires forall s :: c.range.start <= s <= c.range.end ==> Owner(claims, s) == null
    ensures Consistent(claims + [c])
  {
    var all := claims + [c];
    forall i | 0 <= i < |claims|
      ensures !Overlap(claims[i].range, c.range)
    {
      var r := claims[i].range;
      if Overlap(r, c.range) {
        OwnerIs(claims, if r.start < c.range.start then c.range.start else r.start, i);
      }
    }
    assert forall i :: 0 <= i < |claims| ==> all[i] == claims[i];
  }

  /** The claims of the nodes before `i` and of the first `j` ranges of node `i`. */
  function ClaimsUpTo(nodes: seq<ClusterNode>, i: nat, j: nat): seq<Claim>
    requires i < |nodes| && j <= |nodes[i].slots|
  {
    AllClaims(nodes[..i]) + ClaimsOf(nodes[i])[..j]
  }

  lemma ClaimsNext(nodes: seq<ClusterNode>, i: nat, j: nat)
    requires i < |nodes| && j <= |nodes[i].slots|
    ensures j < |nodes[i].slots| ==> ClaimsUpTo(nodes, i, j + 1) == ClaimsUpTo(nodes, i, j) + [Claim(nodes[i], nodes[i].slots[j])]
    ensures j == |nodes[i].slots| ==> ClaimsUpTo(nodes, i, j) == AllClaims(nodes[..i + 1])
    ensures ClaimsUpTo(nodes, i, 0) == AllClaims(nodes[..i])
  {
    assert nodes[..i + 1][..i] == nodes[..i];
    assert ClaimsOf(nodes[i])[..|nodes[i].slots|] == ClaimsOf(nodes[i]);
  }

  /** The claims gathered so far are the first of all claims. */
  lemma {:induction false} ClaimsPrefix(nodes: seq<ClusterNode>, i: nat)
    requires i <= |nodes|
    ensures |AllClaims(nodes[..i])| <= |AllClaims(nodes)|
    ensures AllClaims(nodes)[..|AllClaims(nodes[..i])|] == AllClaims(nodes[..i])
    decreases |nodes|
  {
    if i == |nodes| {
      assert nodes[..i] == nodes;
    } else {
      var init := nodes[..|nodes| - 1];
      ClaimsPrefix(init, i);
      assert init[..i] == nodes[..i];
    }
  }

  /** A conflict among the claims so far, or with the next one, makes the node map unacceptable. */
  lemma Conflict(nodes: seq<ClusterNode>, i: nat, j: nat, s: nat)
    requires i < |nodes| && j < |nodes[i].slots|
    requires nodes[i].slots[j].start <= s <= nodes[i].slots[j].end && Owner(ClaimsUpTo(nodes, i, j), s) != null
    ensures !Acceptable(nodes)
  {
    hide Overlap, AllClaims;
    var some, all := ClaimsUpTo(nodes, i, j + 1), AllClaims(nodes);
    ClaimsNext(nodes, i, j);
    Extends(nodes, i, j + 1);
    var n, claims := |some| - 1, ClaimsUpTo(nodes, i, j);
    OwnerCovers(claims, s);
    var k :| 0 <= k < |claims| && claims[k].range.start <= s <= claims[k].range.end;
    assert some[k] == claims[k] && all[k] == some[k] && all[n] == some[n];
    Meet(all, k, n, s);
  }

  lemma Extends(nodes: seq<ClusterNode>, i: nat, j: nat)
    requires i < |nodes| && j <= |nodes[i].slots|
    ensures |ClaimsUpTo(nodes, i, j)| <= |AllClaims(nodes)|
    ensures forall k :: 0 <= k < |ClaimsUpTo(nodes, i, j)| ==> AllClaims(nodes)[k] == ClaimsUpTo(nodes, i, j)[k]
  {
    ClaimsNext(nodes, i, |nodes[i].slots|);
    ClaimsPrefix(nodes, i + 1);
    var upTo := AllClaims(nodes[..i + 1]);
    assert forall k :: 0 <= k < |ClaimsUpTo(nodes, i, j)| ==> ClaimsUpTo(nodes, i, j)[k] == upTo[k];
    assert forall k :: 0 <= k < |upTo| ==> AllClaims(nodes)[..|upTo|][k] == AllClaims(nodes)[k];
  }

  lemma Meet(claims: seq<Claim>, i: nat, j: nat, s: nat)
    requires i < j < |claims|
    requires claims[i].range.start <= s <= claims[i].range.end && claims[j].range.start <= s <= claims[j].range.end
    ensures !Consistent(claims)
  {
    assert Overlap(claims[i].range, claims[j].range);
  }

  lemma BadRange(nodes: seq<ClusterNode>, i: nat, j: nat)
    requires i < |nodes| && j < |nodes[i].slots| && !ValidRange(nodes[i].slots[j])
    ensures !Acceptable(nodes)
  {
    var k := ClaimAt(nodes, i, j);
  }

  ghost predicate Tabled(table: seq<ClusterNode?>, claims: seq<Claim>) {
    |table| == VALKEYCLUSTER_SLOTS && forall s :: 0 <= s < |table| ==> table[s] == Owner(claims, s)
  }

  /** Enters one range into the table, unless one of its slots is taken. */
  method FillRange(table: array<ClusterNode?>, node: ClusterNode, range: Range, ghost claims: seq<Claim>) returns (ok: bool)
    requires Tabled(table[..], claims) && ValidRange(range)
    modifies table
    ensures ok ==> Tabled(table[..], claims + [Claim(node, range)])
    ensures ok ==> forall s :: range.start <= s <= range.end ==> Owner(claims, s) == null
    ensures !ok ==> exists s :: range.start <= s <= range.end && Owner(claims, s) != null
  {
    var i := range.start;
    while i <= range.end
      invariant range.start <= i <= range.end + 1 && table.Length == VALKEYCLUSTER_SLOTS
      invariant forall s :: 0 <= s < table.Length ==>
        table[s] == if range.start <= s < i then node else Owner(claims, s)
      invariant forall s :: range.start <= s < i ==> Owner(claims, s) == null
    {
      if table[i] != null {
        return false;
      }
      table[i] := node;
      i := i + 1;
    }
    var all := claims + [Claim(node, range)];
    assert all[..|all| - 1] == claims;
    ok := true;
  }

  /** Builds the slot table of a node map, or rejects the node map. */
  method BuildTable(nodes: seq<ClusterNode>) returns (ok: bool, table: array<ClusterNode?>)
    ensures ok <==> Acceptable(nodes)
    ensures fresh(table) && (ok ==> Tabled(table[..], AllClaims(nodes)))
  {
    hide AllClaims, Owner, Overlap;
    table := new ClusterNode?[VALKEYCLUSTER_SLOTS](_ => null);
    NoClaims(table[..], nodes);
    var i := 0;
    while i < |nodes|
      invariant 0 <= i <= |nodes| && fresh(table)
      invariant Tabled(table[..], AllClaims(nodes[..i])) && Consistent(AllClaims(nodes[..i]))
      invariant forall k :: 0 <= k < i ==> nodes[k].role == Primary
    {
      var node := nodes[i];
      if node.role != Primary {
        return false, table;
      }
      ClaimsNext(nodes, i, 0);
      var j := 0;
      while j < |node.slots|
        invariant 0 <= j <= |node.slots| && fresh(table)
        invariant Tabled(table[..], ClaimsUpTo(nodes, i, j)) && Consistent(ClaimsUpTo(nodes, i, j))
      {
        var slot := node.slots[j];
        if slot.start > slot.end || slot.end >= VALKEYCLUSTER_SLOTS {
          BadRange(nodes, i, j);
          return false, table;
        }
        var filled := FillRange(table, node, slot, ClaimsUpTo(nodes, i, j));
        if !filled {
          ghost var s :| slot.start <= s <= slot.end && Owner(ClaimsUpTo(nodes, i, j), s) != null;
          Conflict(nodes, i, j, s);
          return false, table;
        }
        ClaimsNext(nodes, i, j);
        ConsistentSnoc(ClaimsUpTo(nodes, i, j), Claim(node, slot));
        j := j + 1;
      }
      ClaimsNext(nodes, i, j);
      i := i + 1;
    }
    assert nodes[..i] == nodes;
    ok := true;
  }

  lemma NoClaims(table: seq<ClusterNode?>, nodes: seq<ClusterNode>)
    requires |table| == VALKEYCLUSTER_SLOTS && forall s :: 0 <= s < |table| ==> table[s] == null
    ensures Tabled(table, AllClaims(nodes[..0])) && Consistent(AllClaims(nodes[..0]))
  {
  }

  /** A node map in iteration order: one node per address. */
  ghost predicate OnePerAddress(nodes: seq<ClusterNode>) {
    forall i, j :: 0 <= i < j < |nodes| ==> nodes[i].addr != nodes[j].addr
  }

  /** The node with an address, if the map has one. */
  function Lookup(nodes: seq<ClusterNode>, addr: seq<Byte>): (n: ClusterNode?)
    ensures n != null ==> n in nodes && n.addr == addr
    ensures n == null ==> forall i :: 0 <= i < |nodes| ==> nodes[i].addr != addr
  {
    if nodes == [] then null
    else if nodes[0].addr == addr then nodes[0]
    else
      assert forall i :: 0 < i < |nodes| ==> nodes[i] == nodes[1..][i - 1];
      Lookup(nodes[1..], addr)
  }

  /** Every asynchronous connection of a node points back at that node. */
  ghost predicate PointsBack(nodes: set<ClusterNode>)
    reads nodes, set n | n in nodes :: n.acon
  {
    forall n :: n in nodes && n.acon != null ==> n.acon.data == n
  }

  /** No connection is held by two nodes. */
  ghost predicate Exclusive(nodes: set<ClusterNode>)
    reads nodes
  {
    forall m, n :: m in nodes && n in nodes && m != n && m.con != null ==> m.con != n.con
  }

  ghost function Cons(nodes: set<ClusterNode>): set<Connection>
    reads nodes
  {
    set n | n in nodes && n.con != null :: n.con
  }

  ghost function Acons(nodes: set<ClusterNode>): set<AsyncConnection>
    reads nodes
  {
    set n | n in nodes && n.acon != null :: n.acon
  }

  method SwapPair(f: ClusterNode, t: ClusterNode)
    requires f != t && (f.acon != null ==> f.acon.data == f) && (t.acon != null ==> t.acon.data == t)
    modifies f, t, f.acon, t.acon
    ensures (t.con, f.con) == if old(f.con) != null then (old(f.con), old(t.con)) else (old(t.con), old(f.con))
    ensures (t.acon, f.acon) == if old(f.acon) != null then (old(f.acon), old(t.acon)) else (old(t.acon), old(f.acon))
    ensures (f.acon != null ==> f.acon.data == f) && (t.acon != null ==> t.acon.data == t)
  {
    if f.con != null {
      var c := f.con;
      f.con := t.con;
      t.con := c;
    }
    if f.acon != null {
      var ac := f.acon;
      f.acon := t.acon;
      t.acon := ac;
      t.acon.data := t;
      if f.acon != null {
        f.acon.data := f;
      }
    }
  }

  /** What happens to the contexts of a node and of the old node with its address. */
  twostate predicate Swapped(f: ClusterNode, t: ClusterNode)
    reads f, t
  {
    && ((t.con, f.con) == if old(f.con) != null then (old(f.con), old(t.con)) else (old(t.con), old(f.con)))
    && ((t.acon, f.acon) == if old(f.acon) != null then (old(f.acon), old(t.acon)) else (old(t.acon), old(f.acon)))
  }

  /** Swapping the contexts of two nodes keeps every connection, its single holder and the pointers back. */
  method SwapWithin(f: ClusterNode, t: ClusterNode, ghost all: set<ClusterNode>)
    requires f != t && f in all && t in all && PointsBack(all) && Exclusive(all)
    modifies f, t, f.acon, t.acon
    ensures PointsBack(all) && Exclusive(all)
    ensures Cons(all) == old(Cons(all)) && Acons(all) == old(Acons(all))
    ensures Swapped(f, t)
    ensures forall n :: n in all && n != f && n != t ==> n.con == old(n.con) && n.acon == old(n.acon)
  {
    SwapPair(f, t);
  }

  twostate predicate Untouched(n: ClusterNode)
    reads n
  {
    n.con == old(n.con) && n.acon == old(n.acon)
  }

  /** What the hand-over did to a new node and the old node with its address, if any. */
  twostate predicate HandedOver(nodesF: seq<ClusterNode>, t: ClusterNode)
    reads t, Lookup(nodesF, t.addr)
  {
    var f := Lookup(nodesF, t.addr);
    if f == null then Untouched(t) else Swapped(f, t)
  }

  /** Two new nodes and their partners among the old nodes are four different nodes. */
  lemma PairsApart(nodesF: seq<ClusterNode>, nodesT: seq<ClusterNode>, k: nat, i: nat)
    requires OnePerAddress(nodesT) && (forall n :: n in nodesF ==> n !in nodesT) && k < |nodesT| && i < |nodesT| && k != i
    ensures var g, f := Lookup(nodesF, nodesT[k].addr), Lookup(nodesF, nodesT[i].addr);
      && nodesT[k] != nodesT[i] && nodesT[k] != f && g != nodesT[i] && (f != null ==> g != f)
  {
    if k < i {
      assert nodesT[k].addr != nodesT[i].addr;
    } else {
      assert nodesT[i].addr != nodesT[k].addr;
    }
  }

  /** Moves the contexts of the old nodes to the new nodes with the same addresses. */
  method SwapContexts(nodesF: seq<ClusterNode>, nodesT: seq<ClusterNode>, ghost all: set<ClusterNode>)
    requires OnePerAddress(nodesT) && (forall n :: n in nodesF ==> n !in nodesT)
    requires (forall n :: n in all <==> n in nodesF || n in nodesT) && PointsBack(all) && Exclusive(all)
    modifies all, Acons(all)
    ensures PointsBack(all) && Exclusive(all)
    ensures Cons(all) == old(Cons(all)) && Acons(all) == old(Acons(all))
    ensures forall k :: 0 <= k < |nodesT| ==> HandedOver(nodesF, nodesT[k])
    ensures forall f :: f in nodesF && Lookup(nodesT, f.addr) == null ==> Untouched(f)
  {
    hide PointsBack, Exclusive, Cons, Lookup, OnePerAddress;
    var i := 0;
    while i < |nodesT|
      invariant 0 <= i <= |nodesT| && PointsBack(all) && Exclusive(all)
      invariant Cons(all) == old(Cons(all)) && Acons(all) == old(Acons(all))
      invariant forall k :: 0 <= k < i ==> HandedOver(nodesF, nodesT[k])
      invariant forall k :: i <= k < |nodesT| ==> Untouched(nodesT[k])
      invariant forall k :: i <= k < |nodesT| && Lookup(nodesF, nodesT[k].addr) != null ==> Untouched(Lookup(nodesF, nodesT[k].addr))
      invariant forall f :: f in nodesF && Lookup(nodesT, f.addr) == null ==> Untouched(f)
    {
      var t := nodesT[i];
      var f := Lookup(nodesF, t.addr);
      if f != null {
        forall k | 0 <= k < |nodesT| && k != i
          ensures var g := Lookup(nodesF, nodesT[k].addr);
            nodesT[k] != t && nodesT[k] != f && g != t && g != f
        {
          PairsApart(nodesF, nodesT, k, i);
        }
        SwapWithin(f, t, all);
      }
      i := i + 1;
    }
  }

  ghost function NodeSet(nodes: seq<ClusterNode>): set<ClusterNode> {
    set n | n in nodes
  }

  lemma TabledNodes(table: seq<ClusterNode?>, nodes: seq<ClusterNode>)
    requires Tabled(table, AllClaims(nodes))
    ensures |table| == VALKEYCLUSTER_SLOTS && forall s :: 0 <= s < |table| && table[s] != null ==> table[s] in nodes
  {
    hide Owner, AllClaims;
    forall s | 0 <= s < |table| && table[s] != null
      ensures table[s] in nodes
    {
      OwnerIsNode(nodes, s);
    }
  }

  class ClusterContext {
    var nodes: seq<ClusterNode>
    var table: array?<ClusterNode?>
    var routeVersion: nat
    var needUpdateRoute: bool

    /** Every slot entry is one of the context's nodes. */
    ghost predicate Valid()
      reads this, table
    {
      && OnePerAddress(nodes)
      && (table != null ==> table.Length == VALKEYCLUSTER_SLOTS)
      && (table != null ==> forall s :: 0 <= s < table.Length && table[s] != null ==> table[s] in nodes)
    }

    constructor ()
      ensures Valid() && nodes == [] && table == null && routeVersion == 0
    {
      nodes, table, routeVersion, needUpdateRoute := [], null, 0, false;
    }

    /** The node that serves a slot, if one is known. */
    method NodeByTable(slot: nat) returns (n: ClusterNode?)
      requires Valid()
      ensures n == if table == null || slot >= VALKEYCLUSTER_SLOTS then null else table[slot]
      ensures n != null ==> n in nodes
    {
      if table == null || slot >= VALKEYCLUSTER_SLOTS {
        return null;
      }
      return table[slot];
    }

    /**
     * Installs a new node map: accepted exactly when all nodes are primaries
     * with valid ranges that do not share a slot. A rejected one changes nothing.
     */
    method UpdateNodesAndSlotmap(update: Option<seq<ClusterNode>>) returns (ok: bool, events: seq<Event>)
      requires Valid()
      requires update.Some? ==>
        && OnePerAddress(update.value) && (forall n :: n in nodes ==> n !in update.value)
        && PointsBack(NodeSet(nodes + update.value)) && Exclusive(NodeSet(nodes + update.value))
      modifies this, if update.Some? then NodeSet(nodes + update.value) else {},
               if update.Some? then Acons(NodeSet(nodes + update.value)) else {}
      ensures Valid() && (ok <==> update.Some? && Acceptable(update.value))
      ensures !ok ==> unchanged(this) && events == []
      ensures !ok && update.Some? ==> forall n :: n in old(nodes) + update.value ==> Untouched(n)
      ensures ok ==>
        && nodes == update.value && routeVersion == old(routeVersion) + 1 && !needUpdateRoute
        && table != null && fresh(table) && Tabled(table[..], AllClaims(nodes))
      ensures ok ==>
        var all := NodeSet(old(nodes) + update.value);
        && PointsBack(all) && Exclusive(all) && Cons(all) == old(Cons(all)) && Acons(all) == old(Acons(all))
        && forall k :: 0 <= k < |update.value| ==> HandedOver(old(nodes), update.value[k])
      ensures ok ==> events == if routeVersion == 1 then [SlotmapUpdated, Ready] else [SlotmapUpdated]
    {
      hide PointsBack, Exclusive, Cons, Acons, OnePerAddress, Consistent, Owner, AllClaims, Acceptable, Tabled, Lookup;
      if update.None? {
        return false, [];
      }
      var built, newTable := BuildTable(update.value);
      if !built {
        return false, [];
      }
      table := newTable;
      routeVersion := routeVersion + 1;
      SwapContexts(nodes, update.value, NodeSet(nodes + update.value));
      nodes := update.value;
      events := [SlotmapUpdated];
      if routeVersion == 1 {
        events := events + [Ready];
      }
      needUpdateRoute := false;
      ok := true;
      TabledNodes(table[..], nodes);
    }

    /** The node a redirect names: a known one, or a new one added to the map. */
    method NodeFromRedirect(addr: seq<Byte>) returns (node: ClusterNode)
      requires Valid()
      modifies this
      ensures Valid() && node in nodes && node.addr == addr && table == old(table) && routeVersion == old(routeVersion)
      ensures if Lookup(old(nodes), addr) != null then node == Lookup(old(nodes), addr) && nodes == old(nodes)
              else fresh(node) && node.role == Primary && node.slots == [] && nodes == old(nodes) + [node]
    {
      var known := Lookup(nodes, addr);
      if known != null {
        return known;
      }
      node := new ClusterNode(addr, Primary, []);
      nodes := nodes + [node];
    }

    /**
     * A MOVED redirect points one slot at the named node. The source takes it for
     * granted that the slot is in the table: a node that answers "MOVED 16384 h:1"
     * makes it write behind the table, which the result `inTable` reports here.
     */
    method Moved(slot: int, addr: seq<Byte>) returns (node: ClusterNode, inTable: bool)
      requires Valid() && table != null
      modifies this, table
      ensures Valid() && node in nodes && node.addr == addr && table == old(table)
      ensures if Lookup(old(nodes), addr) != null then node == Lookup(old(nodes), addr) && nodes == old(nodes)
              else fresh(node) && nodes == old(nodes) + [node]
      ensures inTable <==> slot < VALKEYCLUSTER_SLOTS
      ensures forall s :: 0 <= s < VALKEYCLUSTER_SLOTS ==> table[s] == if s == slot then node else old(table[s])
    {
      node := NodeFromRedirect(addr);
      inTable := slot < VALKEYCLUSTER_SLOTS;
      if slot >= 0 && inTable {
        table[slot] := node;
      }
    }
  }
}
