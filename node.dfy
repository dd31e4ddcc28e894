/**
 * `Data.Node`: a payload `val` and, per property name, an ordered edge list
 * from edge key to target node. Nodes live in an arena and edges hold arena
 * ids, so a node may be the target of many edges and cycles are fine.
 */
module Nodes {
  import opened OrderedMaps
  import opened SortedHashes

  /** The position of a node in its arena. */
  type NodeId = nat

  datatype NodeRec = NodeRec(val: Prim, edges: map<string, OMap<Prim, NodeId>>) {

    /** `all(p)`: the edge list of `p`, empty when `p` was never set. */
    function All(p: string): OMap<Prim, NodeId> {
      if p in edges then edges[p] else Empty()
    }

    /** The node after `set(p, key, target)`; nothing else about it changes. */
    function Linked(p: string, key: Prim, target: NodeId): (r: NodeRec)
      requires IsHash(All(p))
      ensures r.val == val
      ensures r.All(p) == Assigned(All(p), key, target)
      ensures forall q :: q != p ==> r.All(q) == All(q)
    {
      NodeRec(val, edges[p := Assigned(All(p), key, target)])
    }
  }

  /** A node constructed with payload `val` and no edges. */
  function Fresh(val: Prim): NodeRec {
    NodeRec(val, map[])
  }

  /** Every edge list is a sorted hash and every edge targets a node of the arena. */
  ghost predicate Closed(nodes: seq<NodeRec>) {
    forall a, p :: 0 <= a < |nodes| && p in nodes[a].edges ==> EdgesWithin(nodes[a].edges[p], |nodes|)
  }

  ghost predicate EdgesWithin(es: OMap<Prim, NodeId>, size: nat) {
    IsHash(es) && forall k :: k in es.data ==> es.data[k] < size
  }

  lemma AllWithin(nodes: seq<NodeRec>, a: NodeId, p: string)
    requires Closed(nodes) && a < |nodes|
    ensures EdgesWithin(nodes[a].All(p), |nodes|)
  {
  }

  /** The payload of node `n`, `Undefined` for an id outside the arena. */
  function Payload(nodes: seq<NodeRec>, n: NodeId): Prim {
    if n < |nodes| then nodes[n].val else Undefined
  }

  // ---------------------------------------------------------------------------
  // The read accessors
  // ---------------------------------------------------------------------------

  /** `all(p)` of node `a`. */
  function All(nodes: seq<NodeRec>, a: NodeId, p: string): (r: OMap<Prim, NodeId>)
    requires a < |nodes|
    ensures p !in nodes[a].edges ==> r.keyOrder == [] && r.data == map[]
    ensures Closed(nodes) ==> EdgesWithin(r, |nodes|)
  {
    nodes[a].All(p)
  }

  /** `get(p, key)`: the node stored under `key` in `p`'s edge list. */
  function GetEdge(nodes: seq<NodeRec>, a: NodeId, p: string, key: Prim): (r: Option<NodeId>)
    requires Closed(nodes) && a < |nodes|
    ensures r.Some? <==> key in All(nodes, a, p).data
    ensures r.Some? ==> r.value < |nodes|
  {
    All(nodes, a, p).Get(key)
  }

  /** `first(p)`: the target of the first edge, which is `all(p).at(0)`. */
  function First(nodes: seq<NodeRec>, a: NodeId, p: string): (r: Option<NodeId>)
    requires Closed(nodes) && a < |nodes|
    ensures r == All(nodes, a, p).At(0)
    ensures r.Some? <==> All(nodes, a, p).Length() > 0
    ensures r.Some? ==> r.value < |nodes| && GetEdge(nodes, a, p, All(nodes, a, p).keyOrder[0]) == r
  {
    AllWithin(nodes, a, p);
    All(nodes, a, p).First()
  }

  /** `values(p)`: each edge's target replaced by its payload, same keys, same order. */
  function Values(nodes: seq<NodeRec>, a: NodeId, p: string): (r: OMap<Prim, Prim>)
    requires Closed(nodes) && a < |nodes|
    ensures IsHash(r)
    ensures r.keyOrder == All(nodes, a, p).keyOrder
    ensures forall k :: k in All(nodes, a, p).data ==> r.Get(k) == Some(nodes[All(nodes, a, p).data[k]].val)
    ensures forall k :: k !in All(nodes, a, p).data ==> r.Get(k) == None
  {
    AllWithin(nodes, a, p);
    All(nodes, a, p).Map(n => Payload(nodes, n))
  }

  /** `value(p)`: the payload of the first edge's target. */
  function Value(nodes: seq<NodeRec>, a: NodeId, p: string): (r: Option<Prim>)
    requires Closed(nodes) && a < |nodes|
    ensures r == match First(nodes, a, p) case None => None case Some(n) => Some(nodes[n].val)
  {
    var vs := Values(nodes, a, p);
    if vs.Length() > 0 then
      assert vs.At(0) == vs.Get(All(nodes, a, p).keyOrder[0]);
      vs.First()
    else
      vs.First()
  }

  // ---------------------------------------------------------------------------
  // Edge insertion order
  // ---------------------------------------------------------------------------

  /** Successive `set(p, key, target)` calls on one node. */
  function LinkAll(n: NodeRec, p: string, links: seq<(Prim, NodeId)>): (r: NodeRec)
    requires IsHash(n.All(p))
    ensures IsHash(r.All(p)) && r.val == n.val
    decreases |links|
  {
    if links == [] then n
    else
      var m := LinkAll(n, p, links[..|links| - 1]);
      m.Linked(p, links[|links| - 1].0, links[|links| - 1].1)
  }

  /**
   * Edges set with distinct defined keys on a fresh property come back from
   * `all(p)` in the order they were set, each under its own key.
   */
  lemma {:induction false} LinkAllInOrder(n: NodeRec, p: string, links: seq<(Prim, NodeId)>)
    requires p !in n.edges
    requires forall i :: 0 <= i < |links| ==> links[i].0 != Undefined
    ensures LinkAll(n, p, links).All(p) == PutAll(Empty(), links)
    decreases |links|
  {
    if links != [] {
      LinkAllInOrder(n, p, links[..|links| - 1]);
    }
  }

  /** The same as seen through `all(p)`'s positional accessors. */
  lemma LinkedEdgesFollowInsertionOrder(n: NodeRec, p: string, links: seq<(Prim, NodeId)>)
    requires p !in n.edges
    requires forall i :: 0 <= i < |links| ==> links[i].0 != Undefined
    requires DistinctKeys(links)
    ensures LinkAll(n, p, links).All(p).Length() == |links|
    ensures forall i :: 0 <= i < |links| ==>
      LinkAll(n, p, links).All(p).Key(i) == Some(links[i].0) &&
      LinkAll(n, p, links).All(p).At(i) == Some(links[i].1) &&
      LinkAll(n, p, links).All(p).Get(links[i].0) == Some(links[i].1)
  {
    LinkAllInOrder(n, p, links);
    PutAllInInsertionOrder(links);
  }

  // ---------------------------------------------------------------------------
  // The arena that owns the nodes
  // ---------------------------------------------------------------------------

  class Arena {
    var nodes: seq<NodeRec>

    ghost predicate Valid()
      reads this
    {
      Closed(nodes)
    }

    constructor ()
      ensures Valid() && nodes == []
    {
      nodes := [];
    }

    /** `new Data.Node({value: val})`; `Undefined` stands for `new Data.Node()`. */
    method NewNode(val: Prim) returns (id: NodeId)
      requires Valid()
      modifies this
      ensures Valid()
      ensures id == |old(nodes)| && nodes == old(nodes) + [Fresh(val)]
    {
      id := |nodes|;
      nodes := nodes + [Fresh(val)];
      assert forall a :: 0 <= a < id ==> nodes[a] == old(nodes)[a];
    }

    /** `node.set(p, key, target)` on the node `a`. */
    method Set(a: NodeId, p: string, key: Prim, target: NodeId)
      requires Valid() && a < |nodes| && target < |nodes|
      modifies this
      ensures Valid()
      ensures nodes == old(nodes)[a := old(nodes)[a].Linked(p, key, target)]
    {
      AllWithin(nodes, a, p);
      var updated := nodes[a].Linked(p, key, target);
      nodes := nodes[a := updated];
      forall b, q | 0 <= b < |nodes| && q in nodes[b].edges
        ensures EdgesWithin(nodes[b].edges[q], |nodes|)
      {
        if b == a {
          assert nodes[b].edges[q] == nodes[b].All(q);
          AllWithin(old(nodes), a, q);
        }
      }
    }
  }

  /** The `Data.Node` scenarios of the test suite: `all`, `get`, `first`, `values`, `value`. */
  method NodeScenarios()
  {
    var arena := new Arena();
    var austrian := arena.NewNode(Str("Austrian"));
    var german := arena.NewNode(Str("German"));
    var austria := arena.NewNode(Undefined);
    ghost var n0 := arena.nodes[austria];
    arena.Set(austria, "languages", Str("at"), austrian);
    arena.Set(austria, "languages", Str("ger"), german);
    assert arena.nodes[austria] == n0.Linked("languages", Str("at"), austrian).Linked("languages", Str("ger"), german);
    TwoLinks(n0, "languages", Str("at"), austrian, Str("ger"), german);
    TwoEdgeAccessors(arena.nodes, austria, austrian, german);
  }

  /** Two edges with distinct defined keys set on a fresh property come back in order. */
  lemma TwoLinks(n: NodeRec, p: string, k1: Prim, t1: NodeId, k2: Prim, t2: NodeId)
    requires p !in n.edges && k1 != k2 && k1 != Undefined && k2 != Undefined
    ensures n.Linked(p, k1, t1).Linked(p, k2, t2).All(p).keyOrder == [k1, k2]
    ensures n.Linked(p, k1, t1).Linked(p, k2, t2).All(p).data == map[k1 := t1, k2 := t2]
  {
    var m := n.Linked(p, k1, t1);
    assert m.All(p).keyOrder == [k1] && m.All(p).data == map[k1 := t1];
  }

  /** What the accessors report on a node with the two `languages` edges `at` and `ger`. */
  lemma TwoEdgeAccessors(ns: seq<NodeRec>, a: NodeId, at: NodeId, ger: NodeId)
    requires Closed(ns) && a < |ns| && at < |ns| && ger < |ns|
    requires ns[at].val == Str("Austrian") && ns[ger].val == Str("German")
    requires ns[a].All("languages").keyOrder == [Str("at"), Str("ger")]
    requires ns[a].All("languages").data == map[Str("at") := at, Str("ger") := ger]
    ensures All(ns, a, "languages").At(1) == Some(ger)
    ensures GetEdge(ns, a, "languages", Str("ger")) == Some(ger)
    ensures First(ns, a, "languages") == Some(at)
    ensures Values(ns, a, "languages").Get(Str("ger")) == Some(Str("German"))
    ensures Value(ns, a, "languages") == Some(Str("Austrian"))
  {
    assert All(ns, a, "languages").Length() == 2;
  }

  /** A `null` edge key is a valid key, and its target's payload is reachable through `value`. */
  method NullKeyScenario()
  {
    var arena := new Arena();
    var root := arena.NewNode(Str("RootNode"));
    var nullNode := arena.NewNode(Null);
    arena.Set(root, "values", Null, nullNode);
    var es := arena.nodes[root].All("values");
    assert es.keyOrder == [Null] && es.data == map[Null := nullNode];
    assert Value(arena.nodes, root, "values") == Some(Null);
  }
}
