/**
 * The counting parts of the two graph summaries: `_compute_stats` of the
 * city builder and `compute_graph_stats` of the server. Density, average
 * shortest path and betweenness centrality are floating-point library
 * results; the last two enter as given values.
 */
module Stats {
  import opened Wrappers
  import opened Graphs
  import opened Assoc
  import opened Sorting
  import Views

  /** `{edge_type: count}` in order of first appearance. */
  type Counter = Assoc<string, nat>

  /** The types of the listed edges, in order. */
  function EdgeTypes(g: Graph, order: EdgeOrder): (ts: seq<string>)
    requires OrderIn(g, order)
    ensures |ts| == |order| && forall i :: 0 <= i < |order| ==> ts[i] == g.edges[order[i].key].edgeType
  {
    if order == [] then [] else EdgeTypes(g, order[..|order| - 1]) + [g.edges[order[|order| - 1].key].edgeType]
  }

  /** `ec[t] = ec.get(t, 0) + 1`. */
  function Inc(c: Counter, t: string): Counter
  {
    if c == [] then [(t, 1)]
    else if c[0].0 == t then [(t, c[0].1 + 1)] + c[1..]
    else [c[0]] + Inc(c[1..], t)
  }

  /** `Inc` is the dictionary update `ec[t] = ec.get(t, 0) + 1`. */
  lemma {:induction false} IncIsPut(c: Counter, t: string)
    ensures Inc(c, t) == Put(c, t, Get(c, t).GetOr(0) + 1)
  {
    if c != [] {
      var v := Get(c, t).GetOr(0) + 1;
      if c[0].0 == t {
        assert v == c[0].1 + 1;
        assert Put(c, t, v) == [(t, v)] + c[1..];
      } else {
        IncIsPut(c[1..], t);
        assert Get(c, t) == Get(c[1..], t);
        assert Put(c, t, v) == [c[0]] + Put(c[1..], t, v);
      }
    }
  }

  /** After `Inc`, `t` counts one more and every other type keeps its count. */
  lemma {:induction false} IncGet(c: Counter, t: string, u: string)
    ensures Get(Inc(c, t), u) == if u == t then Some(Get(c, t).GetOr(0) + 1) else Get(c, u)
  {
    if c != [] && c[0].0 != t {
      IncGet(c[1..], t, u);
    }
  }

  /** `Inc` adds one to the total. */
  lemma {:induction false} Bump(c: Counter, t: string)
    ensures Total(Inc(c, t)) == Total(c) + 1
  {
    if c != [] {
      if c[0].0 == t {
        assert Inc(c, t)[1..] == c[1..];
      } else {
        assert Inc(c, t)[1..] == Inc(c[1..], t);
        Bump(c[1..], t);
      }
    }
  }

  /** The counter after the types `ts`. */
  function Count(ts: seq<string>): Counter
  {
    if ts == [] then [] else Inc(Count(ts[..|ts| - 1]), ts[|ts| - 1])
  }

  /** The counting loop over `G.edges(data=True)`. */
  method CountEdgeTypes(g: Graph, order: EdgeOrder) returns (ec: Counter)
    requires OrderIn(g, order)
    ensures ec == Count(EdgeTypes(g, order))
  {
    ghost var ts := EdgeTypes(g, order);
    ec := [];
    for i := 0 to |order|
      invariant ec == Count(ts[..i])
    {
      assert ts[..i + 1][..i] == ts[..i];
      var t := g.edges[order[i].key].edgeType;
      ec := Inc(ec, t);
    }
    assert ts[..|order|] == ts;
  }

  /** The number of occurrences of `t` in `ts`. */
  function Tally(ts: seq<string>, t: string): nat
  {
    if ts == [] then 0
    else Tally(ts[..|ts| - 1], t) + (if ts[|ts| - 1] == t then 1 else 0)
  }

  /** A type is a key exactly when it occurs, and it counts its occurrences. */
  lemma {:induction false} CountIsTally(ts: seq<string>, t: string)
    ensures Tally(ts, t) == 0 ==> Get(Count(ts), t) == None
    ensures Tally(ts, t) > 0 ==> Get(Count(ts), t) == Some(Tally(ts, t))
  {
    if ts != [] {
      CountIsTally(ts[..|ts| - 1], t);
      IncGet(Count(ts[..|ts| - 1]), ts[|ts| - 1], t);
    }
  }

  /** The sum of the counts. */
  function Total(c: Counter): nat
  {
    if c == [] then 0 else c[0].1 + Total(c[1..])
  }

  /** The counts add up to the number of types counted. */
  lemma {:induction false} CountSum(ts: seq<string>)
    ensures Total(Count(ts)) == |ts|
  {
    if ts != [] {
      CountSum(ts[..|ts| - 1]);
      Bump(Count(ts[..|ts| - 1]), ts[|ts| - 1]);
    }
  }

  /** Keys listed once each number as many as they are. */
  lemma {:induction false} OrderKeysCount(order: EdgeOrder, j: nat)
    requires DistinctKeys(order) && j <= |order|
    ensures |OrderKeys(order, j)| == j
  {
    if j > 0 {
      OrderKeysCount(order, j - 1);
      OrderKeysAvoid(order, j - 1);
    }
  }

  /** An enumeration of the edges is as long as there are edges. */
  lemma OrderLength(g: Graph, order: EdgeOrder)
    requires EnumeratesEdges(g, order)
    ensures |order| == |g.edges|
  {
    OrderKeysIn(g, order, |order|);
    forall k | k in g.edges
      ensures k in OrderKeys(order, |order|)
    {
      var i :| 0 <= i < |order| && KeyAt(order, i) == k;
      OrderKeysHas(order, |order|, i);
    }
    assert OrderKeys(order, |order|) == g.edges.Keys;
    OrderKeysCount(order, |order|);
  }

  lemma {:induction false} OrderKeysHas(order: EdgeOrder, j: nat, i: nat)
    requires i < j <= |order|
    ensures KeyAt(order, i) in OrderKeys(order, j)
  {
    if i < j - 1 {
      OrderKeysHas(order, j - 1, i);
    }
  }

  /** `edge_type_counts` sums to `total_edges`. */
  lemma CountsSumToEdges(g: Graph, order: EdgeOrder)
    requires EnumeratesEdges(g, order)
    ensures Total(Count(EdgeTypes(g, order))) == |g.edges|
  {
    CountSum(EdgeTypes(g, order));
    OrderLength(g, order);
  }

  // ---------------------------------------------------------------------
  // Node counts and connectivity
  // ---------------------------------------------------------------------

  /** The nodes that are not intersections. */
  ghost function Infrastructure(g: Graph): set<NodeId>
  {
    set n | n in g.nodes && !IsIntersection(g, n)
  }

  /** `sum(1 for n in G.nodes() if infra_type != "intersection")`. */
  function InfraCount(g: Graph): nat
  {
    |g.nodes.Keys - set n | n in g.nodes && IsIntersection(g, n)|
  }

  /** The count is that of the non-intersection nodes, at most all of them, and all of them exactly when there is no intersection. */
  lemma InfraCountFacts(g: Graph)
    ensures InfraCount(g) == |Infrastructure(g)|
    ensures InfraCount(g) <= |g.nodes|
    ensures InfraCount(g) == |g.nodes| <==> forall n :: n in g.nodes ==> !IsIntersection(g, n)
  {
    var x := set n | n in g.nodes && IsIntersection(g, n);
    assert g.nodes.Keys - x == Infrastructure(g);
    assert |g.nodes.Keys - x| == |g.nodes.Keys| - |x| by {
      assert x <= g.nodes.Keys;
      assert g.nodes.Keys == (g.nodes.Keys - x) + x;
    }
    if exists n :: n in g.nodes && IsIntersection(g, n) {
      var n :| n in g.nodes && IsIntersection(g, n);
      assert n in x;
    } else {
      assert x == {};
    }
  }

  /** `nx.is_connected(G)` on a graph with nodes; false on the empty graph. */
  method IsConnected(g: Graph) returns (b: bool)
    requires Valid(g)
    ensures b <==> |g.nodes| > 0 && Connected(g)
  {
    if |g.nodes| == 0 {
      return false;
    }
    var comps := Components(g);
    ConnectedIffOneComponent(g, comps);
    b := |comps| == 1;
  }

  // ---------------------------------------------------------------------
  // The most central nodes
  // ---------------------------------------------------------------------

  function Descending(p: (string, real)): real
  {
    -p.1
  }

  /** `sorted(ibc.items(), key=value, reverse=True)`. */
  function Ranked(g: Graph, bc: NodeId -> real): (r: seq<(string, real)>)
    requires Valid(g)
  {
    SortBy(Views.ByLabel(g, |g.ids|, bc), Descending)
  }

  /** How many entries `[:10]` keeps. */
  function TopLength(n: nat): (k: nat)
  {
    if n < 10 then n else 10
  }

  /**
   * `top_critical_nodes`: the ten highest centralities among the labels of
   * non-intersection nodes; `bc` gives each node's (rounded) centrality.
   */
  function TopCritical(g: Graph, bc: NodeId -> real): Assoc<string, real>
    requires Valid(g)
  {
    var r := Ranked(g, bc);
    r[..TopLength(|r|)]
  }

  /** The entries `[:10]` drops. */
  function Dropped(g: Graph, bc: NodeId -> real): seq<(string, real)>
    requires Valid(g)
  {
    var r := Ranked(g, bc);
    r[TopLength(|r|)..]
  }

  /**
   * At most ten entries, in descending order of centrality; together with
   * the dropped ones they are exactly the label/centrality pairs, and no
   * dropped entry ranks above a kept one.
   */
  lemma TopCriticalFacts(g: Graph, bc: NodeId -> real)
    requires Valid(g)
    ensures var top := TopCritical(g, bc);
      && |top| <= 10
      && |top| == TopLength(|Views.ByLabel(g, |g.ids|, bc)|)
      && (forall i, j :: 0 <= i < j < |top| ==> top[i].1 >= top[j].1)
      && multiset(top) + multiset(Dropped(g, bc)) == multiset(Views.ByLabel(g, |g.ids|, bc))
      && (forall i, j :: 0 <= i < |top| && 0 <= j < |Dropped(g, bc)| ==> top[i].1 >= Dropped(g, bc)[j].1)
  {
    var r := Ranked(g, bc);
    var k := TopLength(|r|);
    assert r == r[..k] + r[k..];
    forall i, j | 0 <= i < j < k
      ensures r[..k][i].1 >= r[..k][j].1
    {
      assert Descending(r[i]) <= Descending(r[j]);
    }
    forall i, j | 0 <= i < k && 0 <= j < |r| - k
      ensures r[..k][i].1 >= r[k..][j].1
    {
      assert Descending(r[i]) <= Descending(r[k + j]);
    }
  }

  /** A top entry is the label of a non-intersection node and holds that node's centrality. */
  lemma TopCriticalFrom(g: Graph, bc: NodeId -> real, i: nat)
    requires Valid(g) && i < |TopCritical(g, bc)|
    ensures exists j :: 0 <= j < |g.ids| && !IsIntersection(g, g.ids[j]) && TopCritical(g, bc)[i] == (g.nodes[g.ids[j]].name, bc(g.ids[j]))
  {
    var a := Views.ByLabel(g, |g.ids|, bc);
    var r := Ranked(g, bc);
    var p := r[i];
    assert p in multiset(a) by {
      assert p in multiset(r);
    }
    var k :| 0 <= k < |a| && a[k] == p;
    Views.ByLabelEntry(g, |g.ids|, bc, k);
  }

  // ---------------------------------------------------------------------
  // The two summaries
  // ---------------------------------------------------------------------

  /** The counting fields of the summary; `topCritical` and `avgShortestPath` are present only when computed. */
  datatype Summary = Summary(
    totalNodes: nat, infrastructureNodes: nat, totalEdges: nat, edgeTypeCounts: Counter,
    isConnected: bool, avgShortestPath: Option<real>, topCritical: Option<Assoc<string, real>>)

  /**
   * `_compute_stats(G)`: connectivity is false on the empty graph; the
   * average path length (`avg`) is reported for a connected graph of two or
   * more nodes, and the most central nodes for any graph of two or more.
   */
  method CityStats(g: Graph, order: EdgeOrder, avg: real, bc: NodeId -> real) returns (s: Summary)
    requires Valid(g) && EnumeratesEdges(g, order)
    ensures s.totalNodes == |g.nodes| && s.infrastructureNodes == InfraCount(g) && s.totalEdges == |g.edges|
    ensures s.edgeTypeCounts == Count(EdgeTypes(g, order))
    ensures s.isConnected <==> |g.nodes| > 0 && Connected(g)
    ensures s.avgShortestPath.Some? <==> s.isConnected && |g.nodes| > 1
    ensures s.avgShortestPath.Some? ==> s.avgShortestPath.value == avg
    ensures s.topCritical.Some? <==> |g.nodes| > 1
    ensures s.topCritical.Some? ==> s.topCritical.value == TopCritical(g, bc)
  {
    var ec := CountEdgeTypes(g, order);
    var connected := IsConnected(g);
    var path := if connected && |g.nodes| > 1 then Some(avg) else None;
    var top := if |g.nodes| > 1 then Some(TopCritical(g, bc)) else None;
    s := Summary(|g.nodes|, InfraCount(g), |g.edges|, ec, connected, path, top);
  }

  /**
   * `compute_graph_stats(G)`: `nx.is_connected` raises on the empty graph,
   * so that case is an error; otherwise the average path length is reported
   * exactly when the graph is connected. It has no most-central list.
   */
  method GraphStats(g: Graph, order: EdgeOrder, avg: real) returns (r: Result<Summary>)
    requires Valid(g) && EnumeratesEdges(g, order)
    ensures r.Failure? <==> |g.nodes| == 0
    ensures r.Success? ==> var s := r.value;
      && s.totalNodes == |g.nodes| && s.infrastructureNodes == InfraCount(g) && s.totalEdges == |g.edges|
      && s.edgeTypeCounts == Count(EdgeTypes(g, order))
      && (s.isConnected <==> Connected(g))
      && (s.avgShortestPath.Some? <==> s.isConnected)
      && (s.avgShortestPath.Some? ==> s.avgShortestPath.value == avg)
      && s.topCritical == None
  {
    if |g.nodes| == 0 {
      return Failure(NullGraphError);
    }
    var ec := CountEdgeTypes(g, order);
    var connected := IsConnected(g);
    var path := if connected then Some(avg) else None;
    r := Success(Summary(|g.nodes|, InfraCount(g), |g.edges|, ec, connected, path, None));
  }
}
