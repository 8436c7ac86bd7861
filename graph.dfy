/**
 * The infrastructure graph: an undirected simple graph as networkx keeps it.
 * Nodes are integer ids, listed in insertion order, with attributes; an edge
 * is identified by its unordered pair of endpoints and carries a type and a
 * weight. Adding an edge on a pair that already has one overwrites it.
 */
module Graphs {

  type NodeId = nat

  /** Node attributes: the display label (`name`), the infrastructure type and its category. */
  datatype Node = Node(name: string, infraType: string, category: string)

  /** An unordered pair of endpoints, stored with `lo <= hi`. */
  datatype EdgeKey = EdgeKey(lo: NodeId, hi: NodeId)

  datatype Edge = Edge(edgeType: string, weight: real)

  datatype Graph = Graph(ids: seq<NodeId>, nodes: map<NodeId, Node>, edges: map<EdgeKey, Edge>)

  const IntersectionType: string := "intersection"

  /** The message of the error networkx raises when asked whether the null graph is connected. */
  const NullGraphError: string := "Connectivity is undefined for the null graph."

  function Key(a: NodeId, b: NodeId): (k: EdgeKey)
    ensures k.lo <= k.hi
    ensures (k.lo == a && k.hi == b) || (k.lo == b && k.hi == a)
  {
    if a <= b then EdgeKey(a, b) else EdgeKey(b, a)
  }

  lemma KeySymmetric(a: NodeId, b: NodeId)
    ensures Key(a, b) == Key(b, a)
  {
  }

  /** The two keys name the same pair exactly when the endpoint sets agree. */
  lemma KeyEq(a: NodeId, b: NodeId, c: NodeId, d: NodeId)
    ensures Key(a, b) == Key(c, d) <==> ((a == c && b == d) || (a == d && b == c))
  {
  }

  /** Distance between node positions, an oracle of the model. */
  type Dist = (NodeId, NodeId) -> real

  /**
   * `ids` lists exactly the nodes (in insertion order, as `G.nodes()` does)
   * and every edge joins two nodes, stored under its ordered key.
   */
  ghost predicate Valid(g: Graph)
  {
    && (forall n :: n in g.nodes <==> n in g.ids)
    && (forall k :: k in g.edges ==> k.lo <= k.hi && k.lo in g.nodes && k.hi in g.nodes)
  }

  predicate HasEdge(g: Graph, a: NodeId, b: NodeId)
  {
    Key(a, b) in g.edges
  }

  predicate IsIntersection(g: Graph, n: NodeId)
    requires n in g.nodes
  {
    g.nodes[n].infraType == IntersectionType
  }

  /** `G.add_edge(a, b, edge_type=..., weight=...)` on two existing nodes. */
  function AddEdge(g: Graph, a: NodeId, b: NodeId, e: Edge): (r: Graph)
    requires Valid(g) && a in g.nodes && b in g.nodes
    ensures Valid(r) && r.ids == g.ids && r.nodes == g.nodes
    ensures r.edges == g.edges[Key(a, b) := e]
  {
    g.(edges := g.edges[Key(a, b) := e])
  }

  /** `G.remove_edge(a, b)`. */
  function RemoveEdge(g: Graph, a: NodeId, b: NodeId): (r: Graph)
    requires Valid(g)
    ensures Valid(r) && r.ids == g.ids && r.nodes == g.nodes
    ensures r.edges == g.edges - {Key(a, b)}
  {
    g.(edges := g.edges - {Key(a, b)})
  }

  /** Removing an existing edge leaves one edge fewer. */
  lemma RemoveEdgeCount(g: Graph, a: NodeId, b: NodeId)
    requires Valid(g) && HasEdge(g, a, b)
    ensures |RemoveEdge(g, a, b).edges| == |g.edges| - 1
  {
    var r := RemoveEdge(g, a, b);
    assert r.edges.Keys == g.edges.Keys - {Key(a, b)};
  }

  /** `G.add_node(id, ...)` for an id not yet in the graph. */
  function AddNode(g: Graph, id: NodeId, n: Node): (r: Graph)
    requires Valid(g) && id !in g.nodes
    ensures Valid(r) && r.ids == g.ids + [id] && r.nodes == g.nodes[id := n] && r.edges == g.edges
  {
    Graph(g.ids + [id], g.nodes[id := n], g.edges)
  }

  /** The neighbours of `x`: every node that shares an edge with it. */
  function Neighbors(g: Graph, x: NodeId): (s: set<NodeId>)
    requires Valid(g)
    ensures forall y :: y in s <==> Key(x, y) in g.edges
  {
    var s := set k | k in g.edges && (k.lo == x || k.hi == x) :: if k.lo == x then k.hi else k.lo;
    assert forall y :: y in s ==> Key(x, y) in g.edges by {
      forall y | y in s
        ensures Key(x, y) in g.edges
      {
        var k :| k in g.edges && (k.lo == x || k.hi == x) && y == (if k.lo == x then k.hi else k.lo);
        assert Key(x, y) == k;
      }
    }
    assert forall y :: Key(x, y) in g.edges ==> y in s by {
      forall y | Key(x, y) in g.edges
        ensures y in s
      {
        var k := Key(x, y);
        assert (if k.lo == x then k.hi else k.lo) == y;
      }
    }
    s
  }

  /** An entry `(u, v, d)` of `G.edges(data=True)`: the endpoints as listed, and the key they name. */
  datatype Listed = Listed(u: NodeId, v: NodeId, key: EdgeKey)

  /** The order in which `G.edges(data=True)` lists the edges. */
  type EdgeOrder = seq<Listed>

  function KeyAt(order: EdgeOrder, i: nat): EdgeKey
    requires i < |order|
  {
    order[i].key
  }

  /** Every entry of `order` is an edge of `g`. */
  ghost predicate OrderIn(g: Graph, order: EdgeOrder)
  {
    forall i :: 0 <= i < |order| ==>
      order[i].u in g.nodes && order[i].v in g.nodes && order[i].key == Key(order[i].u, order[i].v) && order[i].key in g.edges
  }

  /** `order` lists every edge of `g` exactly once. */
  ghost predicate EnumeratesEdges(g: Graph, order: EdgeOrder)
  {
    && OrderIn(g, order)
    && (forall k :: k in g.edges ==> exists i :: 0 <= i < |order| && KeyAt(order, i) == k)
    && DistinctKeys(order)
  }

  /** No edge is listed twice. */
  ghost predicate DistinctKeys(order: EdgeOrder)
  {
    forall i, j :: 0 <= i < j < |order| ==> KeyAt(order, i) != KeyAt(order, j)
  }

  /** The keys of the first `j` listed edges. */
  function OrderKeys(order: EdgeOrder, j: nat): set<EdgeKey>
    requires j <= |order|
  {
    if j == 0 then {} else OrderKeys(order, j - 1) + {KeyAt(order, j - 1)}
  }

  /** With distinct keys, the `j`-th key is not among the earlier ones. */
  lemma {:induction false} OrderKeysAvoid(order: EdgeOrder, j: nat)
    requires DistinctKeys(order) && j < |order|
    ensures KeyAt(order, j) !in OrderKeys(order, j)
  {
    var n := j;
    while n > 0
      invariant 0 <= n <= j
      invariant KeyAt(order, j) !in OrderKeys(order, j) <== KeyAt(order, j) !in OrderKeys(order, n)
      decreases n
    {
      assert KeyAt(order, n - 1) != KeyAt(order, j);
      n := n - 1;
    }
  }

  /** Listed keys are keys of the graph. */
  lemma {:induction false} OrderKeysIn(g: Graph, order: EdgeOrder, j: nat)
    requires OrderIn(g, order) && j <= |order|
    ensures OrderKeys(order, j) <= g.edges.Keys
  {
    if j > 0 {
      OrderKeysIn(g, order, j - 1);
    }
  }

  // ---------------------------------------------------------------
  // Paths, reachability and connectivity
  // ---------------------------------------------------------------

  /** Positions `i` and `i + 1` of `p` are joined by an edge. */
  ghost predicate Linked(g: Graph, p: seq<NodeId>, i: int)
  {
    0 <= i < |p| - 1 && Key(p[i], p[i + 1]) in g.edges
  }

  ghost predicate IsPath(g: Graph, p: seq<NodeId>)
  {
    && |p| >= 1
    && (forall i :: 0 <= i < |p| ==> p[i] in g.nodes)
    && (forall i :: 0 <= i < |p| - 1 ==> Linked(g, p, i))
  }

  ghost predicate Reach(g: Graph, a: NodeId, b: NodeId)
  {
    exists p :: IsPath(g, p) && p[0] == a && p[|p| - 1] == b
  }

  /** `nx.is_connected(G)` for a graph with at least one node. */
  ghost predicate Connected(g: Graph)
  {
    forall a, b {:trigger Reach(g, a, b)} :: a in g.nodes && b in g.nodes ==> Reach(g, a, b)
  }

  lemma ReachRefl(g: Graph, a: NodeId)
    requires a in g.nodes
    ensures Reach(g, a, a)
  {
    assert IsPath(g, [a]);
  }

  lemma ReachStep(g: Graph, a: NodeId, x: NodeId, y: NodeId)
    requires Reach(g, a, x) && Key(x, y) in g.edges && y in g.nodes
    ensures Reach(g, a, y)
  {
    var p :| IsPath(g, p) && p[0] == a && p[|p| - 1] == x;
    var q := p + [y];
    assert IsPath(g, q) by {
      forall i | 0 <= i < |q| - 1
        ensures Linked(g, q, i)
      {
        if i < |p| - 1 {
          assert Linked(g, p, i);
        }
      }
    }
  }

  lemma ReachTrans(g: Graph, a: NodeId, b: NodeId, c: NodeId)
    requires Reach(g, a, b) && Reach(g, b, c)
    ensures Reach(g, a, c)
  {
    var p :| IsPath(g, p) && p[0] == a && p[|p| - 1] == b;
    var q :| IsPath(g, q) && q[0] == b && q[|q| - 1] == c;
    var r := p + q[1..];
    assert IsPath(g, r) by {
      forall i | 0 <= i < |r| - 1
        ensures Linked(g, r, i)
      {
        if i < |p| - 1 {
          assert Linked(g, p, i);
          assert r[i] == p[i] && r[i + 1] == p[i + 1];
        } else {
          assert Linked(g, q, i - |p| + 1);
          assert r[i] == q[i - |p| + 1] && r[i + 1] == q[i - |p| + 2];
        }
      }
    }
  }

  lemma ReachSym(g: Graph, a: NodeId, b: NodeId)
    requires Reach(g, a, b)
    ensures Reach(g, b, a)
  {
    var p :| IsPath(g, p) && p[0] == a && p[|p| - 1] == b;
    var q := seq(|p|, i requires 0 <= i < |p| => p[|p| - 1 - i]);
    assert IsPath(g, q) by {
      forall i | 0 <= i < |q| - 1
        ensures Linked(g, q, i)
      {
        assert Linked(g, p, |p| - 2 - i);
        KeySymmetric(p[|p| - 2 - i], p[|p| - 1 - i]);
      }
    }
  }

  /** A path only needs its nodes and edges, so it survives adding nodes and edges. */
  lemma ReachMono(g: Graph, h: Graph, a: NodeId, b: NodeId)
    requires Reach(g, a, b)
    requires g.nodes.Keys <= h.nodes.Keys && g.edges.Keys <= h.edges.Keys
    ensures Reach(h, a, b)
  {
    var p :| IsPath(g, p) && p[0] == a && p[|p| - 1] == b;
    assert IsPath(h, p) by {
      forall i | 0 <= i < |p| - 1
        ensures Linked(h, p, i)
      {
        assert Linked(g, p, i);
      }
    }
  }

  /** Every member of `c` is a node of `g`. */
  ghost predicate InGraph(g: Graph, c: set<NodeId>)
  {
    forall n :: n in c ==> n in g.nodes
  }

  /** No edge of `g` has exactly one endpoint in `c`. */
  ghost predicate Closed(g: Graph, c: set<NodeId>)
  {
    forall k :: k in g.edges ==> (k.lo in c <==> k.hi in c)
  }

  /** A path that starts inside a closed set never leaves it. */
  lemma {:induction false} ClosedPath(g: Graph, c: set<NodeId>, p: seq<NodeId>)
    requires Closed(g, c) && IsPath(g, p) && p[0] in c
    ensures forall i :: 0 <= i < |p| ==> p[i] in c
    decreases |p|
  {
    if |p| > 1 {
      assert Linked(g, p, 0);
      var k := Key(p[0], p[1]);
      assert p[1] in c;
      assert IsPath(g, p[1..]) by {
        forall i | 0 <= i < |p| - 2
          ensures Linked(g, p[1..], i)
        {
          assert Linked(g, p, i + 1);
        }
      }
      ClosedPath(g, c, p[1..]);
      forall i | 1 <= i < |p|
        ensures p[i] in c
      {
        assert p[i] == p[1..][i - 1];
      }
    }
  }

  lemma ClosedReach(g: Graph, c: set<NodeId>, a: NodeId, b: NodeId)
    requires Closed(g, c) && a in c && Reach(g, a, b)
    ensures b in c
  {
    var p :| IsPath(g, p) && p[0] == a && p[|p| - 1] == b;
    ClosedPath(g, c, p);
  }

  /**
   * `comps` lists the connected components of `g`: non-empty, pairwise
   * disjoint, covering every node, closed under adjacency and each connected.
   */
  ghost predicate IsComponents(g: Graph, comps: seq<set<NodeId>>)
  {
    && (forall i :: 0 <= i < |comps| ==> comps[i] != {} && InGraph(g, comps[i]))
    && (forall i, j :: 0 <= i < j < |comps| ==> comps[i] !! comps[j])
    && (forall n :: n in g.nodes ==> exists i :: 0 <= i < |comps| && n in comps[i])
    && (forall i :: 0 <= i < |comps| ==> Closed(g, comps[i]))
    && (forall i, a, b :: 0 <= i < |comps| && a in comps[i] && b in comps[i] ==> Reach(g, a, b))
  }

  lemma ComponentsNonEmpty(g: Graph, comps: seq<set<NodeId>>)
    requires IsComponents(g, comps) && |g.nodes| > 0
    ensures |comps| > 0
  {
    var n0 :| n0 in g.nodes;
  }

  lemma OneComponentConnected(g: Graph, comps: seq<set<NodeId>>)
    requires IsComponents(g, comps) && |comps| == 1
    ensures Connected(g)
  {
    forall a, b | a in g.nodes && b in g.nodes
      ensures Reach(g, a, b)
    {
      assert a in comps[0] && b in comps[0];
    }
  }

  lemma TwoComponentsDisconnected(g: Graph, comps: seq<set<NodeId>>)
    requires IsComponents(g, comps) && |comps| >= 2
    ensures !Connected(g)
  {
    var a :| a in comps[0];
    var b :| b in comps[1];
    assert a in g.nodes && b in g.nodes;
    if Reach(g, a, b) {
      ClosedReach(g, comps[0], a, b);
      assert false;
    }
  }

  /** A graph with nodes is connected exactly when it has one component. */
  lemma ConnectedIffOneComponent(g: Graph, comps: seq<set<NodeId>>)
    requires IsComponents(g, comps) && |g.nodes| > 0
    ensures Connected(g) <==> |comps| == 1
  {
    ComponentsNonEmpty(g, comps);
    if |comps| == 1 {
      OneComponentConnected(g, comps);
    } else {
      TwoComponentsDisconnected(g, comps);
    }
  }

  /** The flood-fill invariant: `c` is reached from `s`, and only `work` may have neighbours outside `c`. */
  ghost predicate FillInv(g: Graph, s: NodeId, c: set<NodeId>, work: set<NodeId>)
  {
    && work <= c && InGraph(g, c) && s in c
    && (forall x :: x in c ==> Reach(g, s, x))
    && (forall k :: k in g.edges && k.lo in c - work ==> k.hi in c)
    && (forall k :: k in g.edges && k.hi in c - work ==> k.lo in c)
  }

  /** Expanding `x`: its unvisited neighbours join both `c` and `work`. */
  lemma FillStep(g: Graph, s: NodeId, c: set<NodeId>, work: set<NodeId>, x: NodeId)
    requires Valid(g) && FillInv(g, s, c, work) && x in work
    ensures FillInv(g, s, c + (Neighbors(g, x) - c), work - {x} + (Neighbors(g, x) - c))
  {
    var added := Neighbors(g, x) - c;
    forall y | y in added
      ensures Reach(g, s, y) && y in g.nodes
    {
      ReachStep(g, s, x, y);
    }
    forall k | k in g.edges && (k.lo == x || k.hi == x)
      ensures k.lo in c + added && k.hi in c + added
    {
      if k.lo == x {
        assert Key(x, k.hi) == k;
      } else {
        assert Key(x, k.lo) == k;
      }
    }
  }

  /** The component of `s`: every node reachable from `s`, by flood fill. */
  method Closure(g: Graph, s: NodeId) returns (c: set<NodeId>)
    requires Valid(g) && s in g.nodes
    ensures s in c && InGraph(g, c)
    ensures forall x :: x in c ==> Reach(g, s, x)
    ensures Closed(g, c)
  {
    c := {s};
    var work := {s};
    ReachRefl(g, s);
    while work != {}
      invariant FillInv(g, s, c, work)
      decreases |g.nodes.Keys - c|, |work|
    {
      var x :| x in work;
      var added := Neighbors(g, x) - c;
      FillStep(g, s, c, work, x);
      if added != {} {
        assert g.nodes.Keys - (c + added) < g.nodes.Keys - c;
      }
      c := c + added;
      work := work - {x} + added;
    }
  }

  /** Node `n` lies in one of `comps`. */
  ghost predicate Covered(comps: seq<set<NodeId>>, n: NodeId)
  {
    exists j :: 0 <= j < |comps| && n in comps[j]
  }

  /** Appending the component of an uncovered node keeps the list a partial decomposition. */
  lemma ComponentsExtend(g: Graph, comps: seq<set<NodeId>>, s: NodeId, c: set<NodeId>)
    requires PartialComponents(g, comps) && !Covered(comps, s)
    requires s in c && InGraph(g, c) && Closed(g, c)
    requires forall x :: x in c ==> Reach(g, s, x)
    ensures PartialComponents(g, comps + [c])
  {
    forall j | 0 <= j < |comps|
      ensures comps[j] !! c
    {
      if x :| x in comps[j] && x in c {
        ReachSym(g, s, x);
        ClosedReach(g, comps[j], x, s);
        assert false;
      }
    }
    forall a, b | a in c && b in c
      ensures Reach(g, a, b)
    {
      ReachSym(g, s, a);
      ReachTrans(g, a, s, b);
    }
    var r := comps + [c];
    forall i, a, b | 0 <= i < |r| && a in r[i] && b in r[i]
      ensures Reach(g, a, b)
    {
      if i < |comps| {
        assert r[i] == comps[i];
      }
    }
  }

  /** The position in `ids` of the first node of `c`, or `|ids|` when there is none. */
  function FirstIndex(ids: seq<NodeId>, c: set<NodeId>): (r: nat)
    ensures r <= |ids| && (r < |ids| ==> ids[r] in c)
    ensures forall j :: 0 <= j < r ==> ids[j] !in c
  {
    if ids == [] then 0
    else if ids[0] in c then 0
    else
      var r := 1 + FirstIndex(ids[1..], c);
      assert forall j :: 1 <= j < r ==> ids[j] == ids[1..][j - 1];
      r
  }

  /** The components are listed by the insertion position of their first node. */
  ghost predicate InFirstOrder(g: Graph, comps: seq<set<NodeId>>)
  {
    forall i, j :: 0 <= i < j < |comps| ==> FirstIndex(g.ids, comps[i]) < FirstIndex(g.ids, comps[j])
  }

  /** `nx.connected_components(G)`, in the order of each component's first node. */
  method Components(g: Graph) returns (comps: seq<set<NodeId>>)
    requires Valid(g)
    ensures IsComponents(g, comps) && InFirstOrder(g, comps)
  {
    comps := [];
    for i := 0 to |g.ids|
      invariant PartialComponents(g, comps) && InFirstOrder(g, comps) && FirstBefore(g, comps, i)
      invariant forall j :: 0 <= j < i ==> Covered(comps, g.ids[j])
    {
      comps := ComponentsStep(g, comps, i);
    }
    CoveredAll(g, comps);
  }

  /** Covering every listed node covers every node, which completes the decomposition. */
  lemma CoveredAll(g: Graph, comps: seq<set<NodeId>>)
    requires Valid(g) && PartialComponents(g, comps) && forall j :: 0 <= j < |g.ids| ==> Covered(comps, g.ids[j])
    ensures IsComponents(g, comps)
  {
    forall n | n in g.nodes
      ensures Covered(comps, n)
    {
      var j :| 0 <= j < |g.ids| && g.ids[j] == n;
    }
  }

  /** Every component listed has its first node before position `i`. */
  ghost predicate FirstBefore(g: Graph, comps: seq<set<NodeId>>, i: nat)
  {
    forall k :: 0 <= k < |comps| ==> FirstIndex(g.ids, comps[k]) < i
  }

  /** One iteration: a node not yet covered contributes its closure as a new component. */
  method ComponentsStep(g: Graph, c0: seq<set<NodeId>>, i: nat) returns (comps: seq<set<NodeId>>)
    requires Valid(g) && i < |g.ids|
    requires PartialComponents(g, c0) && forall j :: 0 <= j < i ==> Covered(c0, g.ids[j])
    requires InFirstOrder(g, c0) && FirstBefore(g, c0, i)
    ensures PartialComponents(g, comps) && forall j :: 0 <= j <= i ==> Covered(comps, g.ids[j])
    ensures InFirstOrder(g, comps) && FirstBefore(g, comps, i + 1)
  {
    comps := c0;
    var s := g.ids[i];
    if !(exists j :: 0 <= j < |comps| && s in comps[j]) {
      var c := Closure(g, s);
      ComponentsExtend(g, comps, s, c);
      CoveredExtend(g, comps, c, i);
      FirstIndexAt(g.ids, c, i);
      OrderExtend(g, comps, c, i);
      assert (comps + [c])[|comps|] == c;
      comps := comps + [c];
    }
  }

  /** The nodes before position `i`, covered by `comps`, stay covered and lie outside the new component `c`. */
  lemma CoveredExtend(g: Graph, comps: seq<set<NodeId>>, c: set<NodeId>, i: nat)
    requires i <= |g.ids| && PartialComponents(g, comps + [c]) && forall j :: 0 <= j < i ==> Covered(comps, g.ids[j])
    ensures forall j :: 0 <= j < i ==> Covered(comps + [c], g.ids[j]) && g.ids[j] !in c
  {
    var r := comps + [c];
    forall j | 0 <= j < i
      ensures Covered(r, g.ids[j]) && g.ids[j] !in c
    {
      var t :| 0 <= t < |comps| && g.ids[j] in comps[t];
      assert r[t] == comps[t] && r[|comps|] == c;
    }
  }

  lemma FirstIndexAt(ids: seq<NodeId>, c: set<NodeId>, i: nat)
    requires i < |ids| && ids[i] in c && forall j :: 0 <= j < i ==> ids[j] !in c
    ensures FirstIndex(ids, c) == i
  {
  }

  /** A component first met at position `i` goes after those first met earlier. */
  lemma OrderExtend(g: Graph, comps: seq<set<NodeId>>, c: set<NodeId>, i: nat)
    requires InFirstOrder(g, comps) && FirstBefore(g, comps, i) && FirstIndex(g.ids, c) == i
    ensures InFirstOrder(g, comps + [c]) && FirstBefore(g, comps + [c], i + 1)
  {
    var r := comps + [c];
    assert forall k :: 0 <= k < |comps| ==> r[k] == comps[k];
  }

  /** IsComponents without the covering clause: what holds part-way through. */
  ghost predicate PartialComponents(g: Graph, comps: seq<set<NodeId>>)
  {
    && (forall i :: 0 <= i < |comps| ==> comps[i] != {} && InGraph(g, comps[i]))
    && (forall i, j :: 0 <= i < j < |comps| ==> comps[i] !! comps[j])
    && (forall i :: 0 <= i < |comps| ==> Closed(g, comps[i]))
    && (forall i, a, b :: 0 <= i < |comps| && a in comps[i] && b in comps[i] ==> Reach(g, a, b))
  }
}
