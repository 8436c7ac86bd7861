/**
 * `apply_optimizations` of the optimisation server. It works on a copy of
 * the graph. It resolves labels by exact lookup, removes the proposed edges,
 * and adds the proposed emergency paths. If the graph then falls apart, it
 * joins each pair of consecutive connected components by their closest
 * pair of nodes.
 */
module Server {
  import opened Wrappers
  import opened Text
  import opened Graphs
  import Views

  // ---------------------------------------------------------------------
  // Exact label index
  // ---------------------------------------------------------------------

  /** `label_to_id`. */
  type Index = map<string, NodeId>

  /** Every indexed id is a node of `g`. */
  ghost predicate IndexIn(idx: Index, g: Graph)
  {
    forall l :: l in idx ==> idx[l] in g.nodes
  }

  /** The index after the first `i` nodes: a non-empty label maps to the node that carries it, a later node replacing an earlier one. */
  function IndexUpTo(g: Graph, i: nat): (idx: Index)
    requires Valid(g) && i <= |g.ids|
    ensures IndexIn(idx, g) && "" !in idx
    ensures forall l :: l in idx ==> g.nodes[idx[l]].name == l
  {
    if i == 0 then map[]
    else
      var idx := IndexUpTo(g, i - 1);
      var n := g.ids[i - 1];
      if g.nodes[n].name != "" then idx[g.nodes[n].name := n] else idx
  }

  function IndexOf(g: Graph): Index
    requires Valid(g)
  {
    IndexUpTo(g, |g.ids|)
  }

  /** The loop that builds `label_to_id`. */
  method BuildIndex(g: Graph) returns (idx: Index)
    requires Valid(g)
    ensures idx == IndexOf(g)
  {
    idx := map[];
    for i := 0 to |g.ids|
      invariant idx == IndexUpTo(g, i)
    {
      var n := g.ids[i];
      var l := g.nodes[n].name;
      if l != "" {
        idx := idx[l := n];
      }
    }
  }

  /** Position `j` holds the last node among the first `i` that carries label `l`. */
  ghost predicate LastCarrier(g: Graph, i: nat, l: string, j: nat)
    requires Valid(g) && i <= |g.ids|
  {
    j < i && g.nodes[g.ids[j]].name == l && forall j' :: j < j' < i ==> g.nodes[g.ids[j']].name != l
  }

  /** A label is indexed exactly when it is non-empty and some node carries it. */
  lemma {:induction false} IndexUpToHas(g: Graph, i: nat, l: string)
    requires Valid(g) && i <= |g.ids|
    ensures l in IndexUpTo(g, i) <==> l != "" && exists j :: 0 <= j < i && g.nodes[g.ids[j]].name == l
  {
    if i > 0 {
      IndexUpToHas(g, i - 1, l);
      if g.nodes[g.ids[i - 1]].name == l && l != "" {
        assert l in IndexUpTo(g, i);
      }
    }
  }

  /** An indexed label leads to the last node in node order that carries it. */
  lemma {:induction false} IndexUpToLast(g: Graph, i: nat, l: string)
    requires Valid(g) && i <= |g.ids| && l in IndexUpTo(g, i)
    ensures exists j: nat :: LastCarrier(g, i, l, j) && g.ids[j] == IndexUpTo(g, i)[l]
  {
    var n := g.ids[i - 1];
    if g.nodes[n].name == l {
      assert LastCarrier(g, i, l, i - 1);
    } else {
      IndexUpToLast(g, i - 1, l);
      var j: nat :| LastCarrier(g, i - 1, l, j) && g.ids[j] == IndexUpTo(g, i - 1)[l];
      assert LastCarrier(g, i, l, j);
    }
  }

  /** With distinct labels, every labelled node is found under its own label. */
  lemma IndexFindsNode(g: Graph, n: NodeId)
    requires Valid(g) && Views.UniqueLabels(g) && n in g.nodes && g.nodes[n].name != ""
    ensures g.nodes[n].name in IndexOf(g) && IndexOf(g)[g.nodes[n].name] == n
  {
    var j :| 0 <= j < |g.ids| && g.ids[j] == n;
    IndexUpToHas(g, |g.ids|, g.nodes[n].name);
    IndexUpToLast(g, |g.ids|, g.nodes[n].name);
  }

  // ---------------------------------------------------------------------
  // Requests and records
  // ---------------------------------------------------------------------

  /** One entry of `edges_to_remove` or `edges_to_add`; `None` is a missing key. */
  datatype Request = Request(from: Option<string>, to: Option<string>, reason: Option<string>)

  /** An entry of `edges_removed`. */
  datatype Removal = Removal(from: string, to: string, edgeType: string, reason: string)

  /** An entry of `edges_added`. */
  datatype Addition = Addition(from: string, to: string, edgeType: string, distance: real, reason: string)

  /** An entry of `removal_failures` or `addition_failures`. */
  datatype Refusal = Refusal(from: string, to: string, reason: string)

  /** The `changes` dictionary. */
  datatype Changes = Changes(edgesRemoved: seq<Removal>, edgesAdded: seq<Addition>,
                             removalFailures: seq<Refusal>, additionFailures: seq<Refusal>)

  const EmergencyPath: string := "emergency_path"
  const NotInGraph: string := "Edge not found in graph"
  const AutoAdded: string := "Auto-added to maintain network connectivity after removals"
  const NotFoundPrefix: string := "Node(s) not found: "

  function FromLabel(q: Request): string
  {
    q.from.GetOr("")
  }

  function ToLabel(q: Request): string
  {
    q.to.GetOr("")
  }

  // ---------------------------------------------------------------------
  // Removals
  // ---------------------------------------------------------------------

  /** The graph and the two lists after some removal requests. */
  datatype Removing = Removing(graph: Graph, removed: seq<Removal>, failed: seq<Refusal>)

  /** Request `q` names two indexed labels that share an edge of `m`. */
  predicate Removes(m: Graph, idx: Index, q: Request)
  {
    FromLabel(q) in idx && ToLabel(q) in idx && HasEdge(m, idx[FromLabel(q)], idx[ToLabel(q)])
  }

  /** The removal loop over the first `i` requests. */
  function RemovalsUpTo(m0: Graph, idx: Index, qs: seq<Request>, i: nat): (r: Removing)
    requires Valid(m0) && i <= |qs|
    ensures Valid(r.graph) && r.graph.ids == m0.ids && r.graph.nodes == m0.nodes
    ensures |r.removed| + |r.failed| == i
  {
    if i == 0 then Removing(m0, [], [])
    else
      var r := RemovalsUpTo(m0, idx, qs, i - 1);
      var q := qs[i - 1];
      var m := r.graph;
      if Removes(m, idx, q) then
        var a := idx[FromLabel(q)];
        var b := idx[ToLabel(q)];
        var x := Removal(FromLabel(q), ToLabel(q), m.edges[Key(a, b)].edgeType, q.reason.GetOr(""));
        Removing(RemoveEdge(m, a, b), r.removed + [x], r.failed)
      else
        Removing(m, r.removed, r.failed + [Refusal(FromLabel(q), ToLabel(q), NotInGraph)])
  }

  /** The `edges_to_remove` loop. */
  method RemovePass(m0: Graph, idx: Index, qs: seq<Request>) returns (m: Graph, removed: seq<Removal>, failed: seq<Refusal>)
    requires Valid(m0)
    ensures Removing(m, removed, failed) == RemovalsUpTo(m0, idx, qs, |qs|)
  {
    m, removed, failed := m0, [], [];
    for i := 0 to |qs|
      invariant Removing(m, removed, failed) == RemovalsUpTo(m0, idx, qs, i)
    {
      var q := qs[i];
      var f := q.from.GetOr("");
      var t := q.to.GetOr("");
      if f in idx && t in idx && HasEdge(m, idx[f], idx[t]) {
        var prior := m.edges[Key(idx[f], idx[t])];
        m := RemoveEdge(m, idx[f], idx[t]);
        removed := removed + [Removal(f, t, prior.edgeType, q.reason.GetOr(""))];
      } else {
        failed := failed + [Refusal(f, t, NotInGraph)];
      }
    }
  }

  /** Record `x` names an edge of `m0`, with its type there, that `m` no longer has. */
  ghost predicate RemovedFrom(m0: Graph, m: Graph, idx: Index, x: Removal)
  {
    && x.from in idx && x.to in idx
    && Key(idx[x.from], idx[x.to]) in m0.edges && Key(idx[x.from], idx[x.to]) !in m.edges
    && x.edgeType == m0.edges[Key(idx[x.from], idx[x.to])].edgeType
  }

  /** The removal loop keeps every edge it does not remove. */
  ghost predicate Shrunk(m0: Graph, m: Graph)
  {
    && m.edges.Keys <= m0.edges.Keys
    && forall k :: k in m.edges ==> m.edges[k] == m0.edges[k]
  }

  /** Every recorded removal of `r` took out an edge of `m0`. */
  ghost predicate AllRemoved(m0: Graph, r: Removing, idx: Index)
  {
    forall j :: 0 <= j < |r.removed| ==> RemovedFrom(m0, r.graph, idx, r.removed[j])
  }

  /** Every removal failure of `r` gives the one reason. */
  predicate AllNotInGraph(r: Removing)
  {
    forall j :: 0 <= j < |r.failed| ==> r.failed[j].reason == NotInGraph
  }

  /** Removals only remove. */
  lemma {:induction false} RemovalsShrink(m0: Graph, idx: Index, qs: seq<Request>, i: nat)
    requires Valid(m0) && i <= |qs|
    ensures Shrunk(m0, RemovalsUpTo(m0, idx, qs, i).graph)
  {
    if i > 0 {
      RemovalsShrink(m0, idx, qs, i - 1);
    }
  }

  /** The graph loses exactly one edge per recorded removal. */
  lemma {:induction false} RemovalsCount(m0: Graph, idx: Index, qs: seq<Request>, i: nat)
    requires Valid(m0) && i <= |qs|
    ensures |RemovalsUpTo(m0, idx, qs, i).graph.edges| + |RemovalsUpTo(m0, idx, qs, i).removed| == |m0.edges|
  {
    if i > 0 {
      RemovalsCount(m0, idx, qs, i - 1);
      var r := RemovalsUpTo(m0, idx, qs, i - 1);
      var q := qs[i - 1];
      if Removes(r.graph, idx, q) {
        RemoveEdgeCount(r.graph, idx[FromLabel(q)], idx[ToLabel(q)]);
      }
    }
  }

  /** Each recorded removal took out an edge of the input, recorded with its type there. */
  lemma {:induction false} RemovalsRecorded(m0: Graph, idx: Index, qs: seq<Request>, i: nat)
    requires Valid(m0) && i <= |qs|
    ensures AllRemoved(m0, RemovalsUpTo(m0, idx, qs, i), idx)
  {
    if i > 0 {
      RemovalsRecorded(m0, idx, qs, i - 1);
      RemovalsShrink(m0, idx, qs, i - 1);
      var r := RemovalsUpTo(m0, idx, qs, i - 1);
      var q := qs[i - 1];
      if Removes(r.graph, idx, q) {
        var k := Key(idx[FromLabel(q)], idx[ToLabel(q)]);
        var m' := RemovalsUpTo(m0, idx, qs, i).graph;
        assert m'.edges == r.graph.edges - {k};
        var rs := RemovalsUpTo(m0, idx, qs, i).removed;
        forall j | 0 <= j < |rs|
          ensures RemovedFrom(m0, m', idx, rs[j])
        {
          if j < |r.removed| {
            assert rs[j] == r.removed[j];
            assert RemovedFrom(m0, r.graph, idx, r.removed[j]);
          }
        }
      }
    }
  }

  /** Every removal failure gives the one reason. */
  lemma {:induction false} RemovalsRefused(m0: Graph, idx: Index, qs: seq<Request>, i: nat)
    requires Valid(m0) && i <= |qs|
    ensures AllNotInGraph(RemovalsUpTo(m0, idx, qs, i))
  {
    if i > 0 {
      RemovalsRefused(m0, idx, qs, i - 1);
      var r := RemovalsUpTo(m0, idx, qs, i - 1);
      if !Removes(r.graph, idx, qs[i - 1]) {
        assert RemovalsUpTo(m0, idx, qs, i).failed == r.failed + [Refusal(FromLabel(qs[i - 1]), ToLabel(qs[i - 1]), NotInGraph)];
      }
    }
  }

  // ---------------------------------------------------------------------
  // Additions
  // ---------------------------------------------------------------------

  /** The graph and the two lists after some addition requests. */
  datatype Adding = Adding(graph: Graph, added: seq<Addition>, failed: seq<Refusal>)

  /** The labels `missing` lists: each of the two that is not indexed, in order. */
  function Missing(f: string, t: string, idx: Index): (ms: seq<string>)
  {
    (if f in idx then [] else [f]) + (if t in idx then [] else [t])
  }

  /** `missing` names exactly the labels that did not resolve, and is empty only when both did. */
  lemma MissingFacts(f: string, t: string, idx: Index)
    ensures forall x :: x in Missing(f, t, idx) <==> (x == f && f !in idx) || (x == t && t !in idx)
    ensures Missing(f, t, idx) == [] <==> f in idx && t in idx
    ensures |Missing(f, t, idx)| <= 2
  {
  }

  /** The reason of an addition failure. */
  function NotFoundReason(f: string, t: string, idx: Index): string
  {
    NotFoundPrefix + Join(", ", Missing(f, t, idx))
  }

  /** The addition loop over the first `i` requests; `rnd` is `round(·, 2)`. */
  function AdditionsUpTo(m0: Graph, idx: Index, dist: Dist, rnd: real -> real, qs: seq<Request>, i: nat): (r: Adding)
    requires Valid(m0) && IndexIn(idx, m0) && i <= |qs|
    ensures Valid(r.graph) && r.graph.ids == m0.ids && r.graph.nodes == m0.nodes
    ensures |r.added| + |r.failed| == i
  {
    if i == 0 then Adding(m0, [], [])
    else
      var r := AdditionsUpTo(m0, idx, dist, rnd, qs, i - 1);
      var q := qs[i - 1];
      var f := FromLabel(q);
      var t := ToLabel(q);
      if f in idx && t in idx then
        var d := dist(idx[f], idx[t]);
        Adding(AddEdge(r.graph, idx[f], idx[t], Edge(EmergencyPath, d)),
               r.added + [Addition(f, t, EmergencyPath, rnd(d), q.reason.GetOr(""))], r.failed)
      else
        Adding(r.graph, r.added, r.failed + [Refusal(f, t, NotFoundReason(f, t, idx))])
  }

  /** The `edges_to_add` loop. */
  method AddPass(m0: Graph, idx: Index, dist: Dist, rnd: real -> real, qs: seq<Request>)
    returns (m: Graph, added: seq<Addition>, failed: seq<Refusal>)
    requires Valid(m0) && IndexIn(idx, m0)
    ensures Adding(m, added, failed) == AdditionsUpTo(m0, idx, dist, rnd, qs, |qs|)
  {
    m, added, failed := m0, [], [];
    for i := 0 to |qs|
      invariant Adding(m, added, failed) == AdditionsUpTo(m0, idx, dist, rnd, qs, i)
    {
      var q := qs[i];
      var f := q.from.GetOr("");
      var t := q.to.GetOr("");
      if f in idx && t in idx {
        var d := dist(idx[f], idx[t]);
        m := AddEdge(m, idx[f], idx[t], Edge(EmergencyPath, d));
        added := added + [Addition(f, t, EmergencyPath, rnd(d), q.reason.GetOr(""))];
      } else {
        var missing := (if f in idx then [] else [f]) + (if t in idx then [] else [t]);
        failed := failed + [Refusal(f, t, NotFoundPrefix + Join(", ", missing))];
      }
    }
  }

  /** `m` joins `a` and `b` by an emergency path weighted by their distance. */
  ghost predicate EmergencyBetween(m: Graph, dist: Dist, a: NodeId, b: NodeId)
  {
    Key(a, b) in m.edges && (m.edges[Key(a, b)] == Edge(EmergencyPath, dist(a, b)) || m.edges[Key(a, b)] == Edge(EmergencyPath, dist(b, a)))
  }

  /** Additions only add or overwrite, always with an emergency path. */
  ghost predicate Grown(m0: Graph, m: Graph)
  {
    && m0.edges.Keys <= m.edges.Keys
    && forall k :: k in m.edges ==> (k in m0.edges && m.edges[k] == m0.edges[k]) || m.edges[k].edgeType == EmergencyPath
  }

  /** Every recorded pair is then joined by an emergency path. */
  ghost predicate AddedIn(m: Graph, idx: Index, dist: Dist, x: Addition)
  {
    x.from in idx && x.to in idx && EmergencyBetween(m, dist, idx[x.from], idx[x.to])
  }

  /** Every recorded addition is joined by an emergency path in the graph of `r`. */
  ghost predicate AllAdded(r: Adding, idx: Index, dist: Dist)
  {
    forall j :: 0 <= j < |r.added| ==> AddedIn(r.graph, idx, dist, r.added[j])
  }

  /** Every addition failure of `r` names the labels missing from `idx`. */
  predicate AllRefused(r: Adding, idx: Index)
  {
    forall j :: 0 <= j < |r.failed| ==> r.failed[j].reason == NotFoundReason(r.failed[j].from, r.failed[j].to, idx)
  }

  /** The addition loop keeps every edge and writes only emergency paths. */
  lemma {:induction false} AdditionsGrow(m0: Graph, idx: Index, dist: Dist, rnd: real -> real, qs: seq<Request>, i: nat)
    requires Valid(m0) && IndexIn(idx, m0) && i <= |qs|
    ensures Grown(m0, AdditionsUpTo(m0, idx, dist, rnd, qs, i).graph)
  {
    if i > 0 {
      AdditionsGrow(m0, idx, dist, rnd, qs, i - 1);
    }
  }

  /** Every recorded pair is joined by an emergency path afterwards. */
  lemma {:induction false} AdditionsRecorded(m0: Graph, idx: Index, dist: Dist, rnd: real -> real, qs: seq<Request>, i: nat)
    requires Valid(m0) && IndexIn(idx, m0) && i <= |qs|
    ensures AllAdded(AdditionsUpTo(m0, idx, dist, rnd, qs, i), idx, dist)
  {
    if i > 0 {
      AdditionsRecorded(m0, idx, dist, rnd, qs, i - 1);
      var r := AdditionsUpTo(m0, idx, dist, rnd, qs, i - 1);
      var q := qs[i - 1];
      var f := FromLabel(q);
      var t := ToLabel(q);
      if f in idx && t in idx {
        var k := Key(idx[f], idx[t]);
        var m' := AdditionsUpTo(m0, idx, dist, rnd, qs, i).graph;
        assert m'.edges == r.graph.edges[k := Edge(EmergencyPath, dist(idx[f], idx[t]))];
        var xs := AdditionsUpTo(m0, idx, dist, rnd, qs, i).added;
        assert xs == r.added + [Addition(f, t, EmergencyPath, rnd(dist(idx[f], idx[t])), q.reason.GetOr(""))];
        forall j | 0 <= j < |xs|
          ensures AddedIn(m', idx, dist, xs[j])
        {
          if j < |r.added| {
            var x := r.added[j];
            assert xs[j] == x;
            assert AddedIn(r.graph, idx, dist, x);
            var a, b := idx[x.from], idx[x.to];
            if Key(a, b) == k {
              KeyEq(a, b, idx[f], idx[t]);
            } else {
              assert m'.edges[Key(a, b)] == r.graph.edges[Key(a, b)];
            }
          } else {
            assert xs[j].from == f && xs[j].to == t;
          }
        }
      }
    }
  }

  /** Each addition failure names the labels it could not find. */
  lemma {:induction false} AdditionsRefused(m0: Graph, idx: Index, dist: Dist, rnd: real -> real, qs: seq<Request>, i: nat)
    requires Valid(m0) && IndexIn(idx, m0) && i <= |qs|
    ensures AllRefused(AdditionsUpTo(m0, idx, dist, rnd, qs, i), idx)
  {
    if i > 0 {
      AdditionsRefused(m0, idx, dist, rnd, qs, i - 1);
      var r := AdditionsUpTo(m0, idx, dist, rnd, qs, i - 1);
      var q := qs[i - 1];
      var f := FromLabel(q);
      var t := ToLabel(q);
      if !(f in idx && t in idx) {
        var fs := AdditionsUpTo(m0, idx, dist, rnd, qs, i).failed;
        assert fs == r.failed + [Refusal(f, t, NotFoundReason(f, t, idx))];
      }
    }
  }

  // ---------------------------------------------------------------------
  // Connectivity repair
  // ---------------------------------------------------------------------

  /** `dist(a, b)`, named so that quantifiers over pairs do not trigger on every distance term. */
  function Gap(dist: Dist, p: (NodeId, NodeId)): real
  {
    dist(p.0, p.1)
  }

  /** `p` runs from `c1` to `c2`, and no such pair is closer. */
  ghost predicate Closest(c1: set<NodeId>, c2: set<NodeId>, dist: Dist, p: (NodeId, NodeId))
  {
    && p.0 in c1 && p.1 in c2
    && forall x, y :: x in c1 && y in c2 ==> Gap(dist, p) <= Gap(dist, (x, y))
  }

  /** No pair from `done` to `c2` is closer than `p`. */
  ghost predicate NoCloser(done: set<NodeId>, c2: set<NodeId>, dist: Dist, p: (NodeId, NodeId))
  {
    forall x, y :: x in done && y in c2 ==> Gap(dist, p) <= Gap(dist, (x, y))
  }

  /**
   * The inner loop over `c2` for one `x` of `c1`: a pair replaces the best so
   * far only when it is strictly closer; `None` plays the role of infinity.
   */
  method ScanPartners(x: NodeId, c2: set<NodeId>, dist: Dist, best: Option<(NodeId, NodeId)>)
    returns (r: Option<(NodeId, NodeId)>)
    requires c2 != {}
    ensures r.Some?
    ensures r == best || (r.value.0 == x && r.value.1 in c2)
    ensures best.Some? ==> Gap(dist, r.value) <= Gap(dist, best.value)
    ensures forall y :: y in c2 ==> Gap(dist, r.value) <= Gap(dist, (x, y))
  {
    r := best;
    var rest := c2;
    while rest != {}
      invariant rest <= c2
      invariant r == best || (r.Some? && r.value.0 == x && r.value.1 in c2)
      invariant best.Some? ==> r.Some? && Gap(dist, r.value) <= Gap(dist, best.value)
      invariant rest != c2 ==> r.Some?
      invariant forall y :: y in c2 - rest ==> r.Some? && Gap(dist, r.value) <= Gap(dist, (x, y))
      decreases rest
    {
      var y :| y in rest;
      if r.None? || Gap(dist, (x, y)) < Gap(dist, r.value) {
        r := Some((x, y));
      }
      rest := rest - {y};
    }
  }

  /** The double loop that finds the closest pair between two components. */
  method ClosestPair(c1: set<NodeId>, c2: set<NodeId>, dist: Dist) returns (p: (NodeId, NodeId))
    requires c1 != {} && c2 != {}
    ensures Closest(c1, c2, dist, p)
  {
    var best: Option<(NodeId, NodeId)> := None;
    var rest := c1;
    while rest != {}
      invariant rest <= c1
      invariant best.Some? ==> best.value.0 in c1 && best.value.1 in c2
      invariant rest != c1 ==> best.Some?
      invariant best.Some? ==> NoCloser(c1 - rest, c2, dist, best.value)
      decreases rest
    {
      var x :| x in rest;
      var b := ScanPartners(x, c2, dist, best);
      assert NoCloser(c1 - (rest - {x}), c2, dist, b.value) by {
        forall x', y | x' in c1 - (rest - {x}) && y in c2
          ensures Gap(dist, b.value) <= Gap(dist, (x', y))
        {
          if x' != x {
            assert NoCloser(c1 - rest, c2, dist, best.value);
          }
        }
      }
      best := b;
      rest := rest - {x};
    }
    p := best.value;
  }

  /** Node `n` lies in one of the first `i + 1` components. */
  ghost predicate Within(comps: seq<set<NodeId>>, i: nat, n: NodeId)
  {
    exists j :: 0 <= j <= i && j < |comps| && n in comps[j]
  }

  /** Key `k` is a bridge between two consecutive components, as recorded in `pairs`. */
  ghost predicate IsBridge(pairs: seq<(NodeId, NodeId)>, k: EdgeKey)
  {
    exists j :: 0 <= j < |pairs| && k == Key(pairs[j].0, pairs[j].1)
  }

  /** Each pair joins the closest nodes of two consecutive components. */
  ghost predicate PairsClosest(comps: seq<set<NodeId>>, dist: Dist, pairs: seq<(NodeId, NodeId)>)
  {
    |pairs| < |comps| && forall j :: 0 <= j < |pairs| ==> Closest(comps[j], comps[j + 1], dist, pairs[j])
  }

  /** Bridge `j` is an emergency path of `m` weighted by the distance, and its record names its endpoints. */
  ghost predicate Bridged(m: Graph, dist: Dist, rnd: real -> real, p: (NodeId, NodeId), x: Addition)
  {
    && p.0 in m.nodes && p.1 in m.nodes
    && Key(p.0, p.1) in m.edges
    && m.edges[Key(p.0, p.1)] == Edge(EmergencyPath, Gap(dist, p))
    && x == Addition(m.nodes[p.0].name, m.nodes[p.1].name, EmergencyPath, rnd(Gap(dist, p)), AutoAdded)
  }

  /** The repair loop's graph has the input's nodes, and one record and pair per bridge so far. */
  ghost predicate RepairShape(m0: Graph, comps: seq<set<NodeId>>, m: Graph, pairs: seq<(NodeId, NodeId)>, added: seq<Addition>, i: nat)
  {
    Valid(m) && m.ids == m0.ids && m.nodes == m0.nodes && i < |comps| && |pairs| == i && |added| == i
  }

  /** Every bridge so far is in place and recorded. */
  ghost predicate RepairRecords(m: Graph, dist: Dist, rnd: real -> real, pairs: seq<(NodeId, NodeId)>, added: seq<Addition>)
  {
    |pairs| == |added| && forall j :: 0 <= j < |pairs| ==> Bridged(m, dist, rnd, pairs[j], added[j])
  }

  /** The input's edges survive unchanged. */
  ghost predicate EdgesKept(m0: Graph, m: Graph)
  {
    forall k :: k in m0.edges ==> k in m.edges && m.edges[k] == m0.edges[k]
  }

  /** Every edge the input lacks is a bridge. */
  ghost predicate OnlyBridges(m0: Graph, m: Graph, pairs: seq<(NodeId, NodeId)>)
  {
    forall k :: k in m.edges ==> k in m0.edges || IsBridge(pairs, k)
  }

  /** Every edge the input lacks lies inside the first `i + 1` components. */
  ghost predicate NewWithin(m0: Graph, comps: seq<set<NodeId>>, m: Graph, i: nat)
  {
    forall k :: k in m.edges && k !in m0.edges ==> Within(comps, i, k.lo) && Within(comps, i, k.hi)
  }

  /** The input's edges survive, every other edge is a bridge inside the first `i + 1` components, one per step. */
  ghost predicate RepairEdges(m0: Graph, comps: seq<set<NodeId>>, m: Graph, pairs: seq<(NodeId, NodeId)>, i: nat)
  {
    EdgesKept(m0, m) && OnlyBridges(m0, m, pairs) && NewWithin(m0, comps, m, i) && |m.edges| == |m0.edges| + i
  }

  /** Every node of the first `i + 1` components is reached from `r0`. */
  ghost predicate RepairReach(comps: seq<set<NodeId>>, r0: NodeId, m: Graph, i: nat)
  {
    forall n :: Within(comps, i, n) ==> Reach(m, r0, n)
  }

  /** What the repair loop keeps after joining the first `i + 1` components. */
  ghost predicate RepairInv(m0: Graph, comps: seq<set<NodeId>>, dist: Dist, rnd: real -> real, r0: NodeId,
                            m: Graph, pairs: seq<(NodeId, NodeId)>, added: seq<Addition>, i: nat)
  {
    && RepairShape(m0, comps, m, pairs, added, i)
    && PairsClosest(comps, dist, pairs)
    && RepairRecords(m, dist, rnd, pairs, added)
    && RepairEdges(m0, comps, m, pairs, i)
    && RepairReach(comps, r0, m, i)
  }

  /**
   * What one repair step uses of the components of `m0`: the two components
   * it joins lie in the graph, the next one is disjoint from all before it
   * and connected, and no edge leaves the current one.
   */
  ghost predicate Stage(m0: Graph, comps: seq<set<NodeId>>, i: nat)
  {
    && i + 1 < |comps|
    && InGraph(m0, comps[i]) && InGraph(m0, comps[i + 1])
    && (forall j :: 0 <= j <= i ==> comps[j] !! comps[i + 1])
    && Closed(m0, comps[i])
    && (forall a, b :: a in comps[i + 1] && b in comps[i + 1] ==> Reach(m0, a, b))
  }

  lemma StageOf(m0: Graph, comps: seq<set<NodeId>>, i: nat)
    requires IsComponents(m0, comps) && i + 1 < |comps|
    ensures Stage(m0, comps, i)
  {
  }

  /** A node of component `i + 1` is not among the first `i + 1` components. */
  lemma NotWithin(g: Graph, comps: seq<set<NodeId>>, i: nat, b: NodeId)
    requires Stage(g, comps, i) && b in comps[i + 1]
    ensures !Within(comps, i, b)
  {
    forall j | 0 <= j <= i && j < |comps|
      ensures b !in comps[j]
    {
      assert comps[j] !! comps[i + 1];
    }
  }

  /** The bridge between components `i` and `i + 1` is an edge no earlier stage had. */
  lemma BridgeIsNew(m0: Graph, comps: seq<set<NodeId>>, m: Graph, pairs: seq<(NodeId, NodeId)>, i: nat, p: (NodeId, NodeId))
    requires Stage(m0, comps, i) && RepairEdges(m0, comps, m, pairs, i)
    requires p.0 in comps[i] && p.1 in comps[i + 1]
    ensures Key(p.0, p.1) !in m.edges
  {
    var k := Key(p.0, p.1);
    NotWithin(m0, comps, i, p.1);
    assert p.1 !in comps[i] by {
      assert comps[i] !! comps[i + 1];
    }
    assert Closed(m0, comps[i]);
    assert k !in m0.edges;
    assert !Within(comps, i, k.lo) || !Within(comps, i, k.hi);
  }

  /** Every node of component `i + 1` is reached from `r0` once the bridge into it is added. */
  lemma BridgeReaches(m0: Graph, comps: seq<set<NodeId>>, r0: NodeId, m: Graph, m': Graph, i: nat, p: (NodeId, NodeId))
    requires Stage(m0, comps, i) && Valid(m) && m.nodes == m0.nodes && m'.nodes == m.nodes
    requires m0.edges.Keys <= m.edges.Keys && m.edges.Keys <= m'.edges.Keys
    requires p.0 in comps[i] && p.1 in comps[i + 1] && Key(p.0, p.1) in m'.edges
    requires Reach(m, r0, p.0)
    ensures forall n :: n in comps[i + 1] ==> Reach(m', r0, n)
  {
    ReachMono(m, m', r0, p.0);
    assert InGraph(m0, comps[i + 1]);
    ReachStep(m', r0, p.0, p.1);
    forall n | n in comps[i + 1]
      ensures Reach(m', r0, n)
    {
      assert Reach(m0, p.1, n);
      ReachMono(m0, m', p.1, n);
      ReachTrans(m', r0, p.1, n);
    }
  }

  /** The graph and records after bridging components `i` and `i + 1` by `p`. */
  function Bridge(m: Graph, dist: Dist, rnd: real -> real, p: (NodeId, NodeId)): (r: (Graph, Addition))
    requires Valid(m) && p.0 in m.nodes && p.1 in m.nodes
    ensures Valid(r.0) && r.0.ids == m.ids && r.0.nodes == m.nodes
    ensures r.0.edges == m.edges[Key(p.0, p.1) := Edge(EmergencyPath, Gap(dist, p))]
  {
    (AddEdge(m, p.0, p.1, Edge(EmergencyPath, Gap(dist, p))),
     Addition(m.nodes[p.0].name, m.nodes[p.1].name, EmergencyPath, rnd(Gap(dist, p)), AutoAdded))
  }

  /** A bridge keeps the records of the earlier ones and adds its own. */
  lemma {:induction false} RecordsStep(m: Graph, dist: Dist, rnd: real -> real,
                                       pairs: seq<(NodeId, NodeId)>, added: seq<Addition>, p: (NodeId, NodeId))
    requires Valid(m) && RepairRecords(m, dist, rnd, pairs, added)
    requires p.0 in m.nodes && p.1 in m.nodes && Key(p.0, p.1) !in m.edges
    ensures RepairRecords(Bridge(m, dist, rnd, p).0, dist, rnd, pairs + [p], added + [Bridge(m, dist, rnd, p).1])
  {
    var (m', x) := Bridge(m, dist, rnd, p);
    var pairs', added' := pairs + [p], added + [x];
    forall j | 0 <= j < |pairs'|
      ensures Bridged(m', dist, rnd, pairs'[j], added'[j])
    {
      if j < |pairs| {
        assert Bridged(m, dist, rnd, pairs[j], added[j]);
        assert pairs'[j] == pairs[j] && added'[j] == added[j];
      }
    }
  }

  /** The closest-pair facts grow by the new pair. */
  lemma PairsStep(comps: seq<set<NodeId>>, dist: Dist, pairs: seq<(NodeId, NodeId)>, p: (NodeId, NodeId))
    requires PairsClosest(comps, dist, pairs) && |pairs| + 1 < |comps|
    requires Closest(comps[|pairs|], comps[|pairs| + 1], dist, p)
    ensures PairsClosest(comps, dist, pairs + [p])
  {
    var pairs' := pairs + [p];
    forall j | 0 <= j < |pairs'|
      ensures Closest(comps[j], comps[j + 1], dist, pairs'[j])
    {
      if j < |pairs| {
        assert pairs'[j] == pairs[j];
      }
    }
  }

  /** A new key keeps the input's edges. */
  lemma KeptStep(m0: Graph, m: Graph, m': Graph, k: EdgeKey, e: Edge)
    requires EdgesKept(m0, m) && k !in m.edges && m'.edges == m.edges[k := e]
    ensures EdgesKept(m0, m')
  {
  }

  /** A new key that is the bridge `p` keeps every other edge a bridge. */
  lemma {:induction false} OnlyBridgesStep(m0: Graph, m: Graph, m': Graph, pairs: seq<(NodeId, NodeId)>, p: (NodeId, NodeId), e: Edge)
    requires OnlyBridges(m0, m, pairs) && m'.edges == m.edges[Key(p.0, p.1) := e]
    ensures OnlyBridges(m0, m', pairs + [p])
  {
    var pairs' := pairs + [p];
    forall k' | k' in m'.edges
      ensures k' in m0.edges || IsBridge(pairs', k')
    {
      if k' == Key(p.0, p.1) {
        assert pairs'[|pairs|] == p;
      } else if k' !in m0.edges {
        assert IsBridge(pairs, k');
        var j :| 0 <= j < |pairs| && k' == Key(pairs[j].0, pairs[j].1);
        assert pairs'[j] == pairs[j];
      }
    }
  }

  /** The bridge into component `i + 1` keeps new edges inside the first `i + 2` components. */
  lemma {:induction false} WithinStep(m0: Graph, comps: seq<set<NodeId>>, m: Graph, m': Graph, i: nat, p: (NodeId, NodeId), e: Edge)
    requires NewWithin(m0, comps, m, i) && m'.edges == m.edges[Key(p.0, p.1) := e]
    requires i + 1 < |comps| && p.0 in comps[i] && p.1 in comps[i + 1]
    ensures NewWithin(m0, comps, m', i + 1)
  {
    WithinGrows(comps, i);
    assert Within(comps, i + 1, p.1);
    assert Within(comps, i, p.0);
  }

  /** A bridge is a new edge, and the earlier edges stay. */
  lemma {:induction false} EdgesStep(m0: Graph, comps: seq<set<NodeId>>, m: Graph, m': Graph, pairs: seq<(NodeId, NodeId)>, i: nat, p: (NodeId, NodeId), e: Edge)
    requires RepairEdges(m0, comps, m, pairs, i) && Key(p.0, p.1) !in m.edges
    requires i + 1 < |comps| && p.0 in comps[i] && p.1 in comps[i + 1]
    requires m'.edges == m.edges[Key(p.0, p.1) := e]
    ensures RepairEdges(m0, comps, m', pairs + [p], i + 1)
  {
    var k := Key(p.0, p.1);
    assert m'.edges.Keys == m.edges.Keys + {k};
    assert |m'.edges.Keys| == |m.edges.Keys| + 1;
    KeptStep(m0, m, m', k, e);
    OnlyBridgesStep(m0, m, m', pairs, p, e);
    WithinStep(m0, comps, m, m', i, p, e);
  }

  /** The first `i + 1` components are among the first `i + 2`. */
  lemma WithinGrows(comps: seq<set<NodeId>>, i: nat)
    ensures forall n :: Within(comps, i, n) ==> Within(comps, i + 1, n)
  {
    forall n | Within(comps, i, n)
      ensures Within(comps, i + 1, n)
    {
      var j :| 0 <= j <= i && j < |comps| && n in comps[j];
    }
  }

  /** After the bridge, the first `i + 2` components are reached from `r0`. */
  lemma {:induction false} ReachStepped(m0: Graph, comps: seq<set<NodeId>>, r0: NodeId, m: Graph, m': Graph, i: nat, p: (NodeId, NodeId))
    requires Stage(m0, comps, i) && RepairReach(comps, r0, m, i)
    requires Valid(m) && m.nodes == m0.nodes && m'.nodes == m.nodes
    requires m0.edges.Keys <= m.edges.Keys && m.edges.Keys <= m'.edges.Keys
    requires p.0 in comps[i] && p.1 in comps[i + 1] && Key(p.0, p.1) in m'.edges
    ensures RepairReach(comps, r0, m', i + 1)
  {
    assert Within(comps, i, p.0);
    BridgeReaches(m0, comps, r0, m, m', i, p);
    forall n | Within(comps, i + 1, n)
      ensures Reach(m', r0, n)
    {
      var j :| 0 <= j <= i + 1 && j < |comps| && n in comps[j];
      if j <= i {
        assert Within(comps, i, n);
        ReachMono(m, m', r0, n);
      }
    }
  }

  /** One iteration of the repair loop keeps its invariant. */
  lemma {:induction false} RepairStep(m0: Graph, comps: seq<set<NodeId>>, dist: Dist, rnd: real -> real, r0: NodeId,
                                      m: Graph, pairs: seq<(NodeId, NodeId)>, added: seq<Addition>, i: nat, p: (NodeId, NodeId))
    requires Stage(m0, comps, i) && RepairInv(m0, comps, dist, rnd, r0, m, pairs, added, i)
    requires Closest(comps[i], comps[i + 1], dist, p)
    ensures p.0 in m.nodes && p.1 in m.nodes
    ensures RepairInv(m0, comps, dist, rnd, r0, Bridge(m, dist, rnd, p).0, pairs + [p], added + [Bridge(m, dist, rnd, p).1], i + 1)
  {
    assert InGraph(m0, comps[i]) && InGraph(m0, comps[i + 1]);
    var m' := Bridge(m, dist, rnd, p).0;
    BridgeIsNew(m0, comps, m, pairs, i, p);
    RecordsStep(m, dist, rnd, pairs, added, p);
    PairsStep(comps, dist, pairs, p);
    EdgesStep(m0, comps, m, m', pairs, i, p, Edge(EmergencyPath, Gap(dist, p)));
    ReachStepped(m0, comps, r0, m, m', i, p);
  }

  /** Before any bridge: the first component is reached from any of its nodes. */
  lemma RepairStart(m0: Graph, comps: seq<set<NodeId>>, dist: Dist, rnd: real -> real, r0: NodeId)
    requires Valid(m0) && |comps| > 0 && forall n :: n in comps[0] ==> Reach(m0, r0, n)
    ensures RepairInv(m0, comps, dist, rnd, r0, m0, [], [], 0)
  {
    forall n | Within(comps, 0, n)
      ensures Reach(m0, r0, n)
    {
      assert n in comps[0];
    }
    assert |m0.edges| == |m0.edges| + 0;
  }

  /** Once every component is joined, the graph is connected. */
  lemma RepairConnects(m0: Graph, comps: seq<set<NodeId>>, r0: NodeId, m: Graph)
    requires IsComponents(m0, comps) && |comps| > 0 && m.nodes == m0.nodes
    requires RepairReach(comps, r0, m, |comps| - 1)
    ensures Connected(m)
  {
    forall a, b | a in m.nodes && b in m.nodes
      ensures Reach(m, a, b)
    {
      var i :| 0 <= i < |comps| && a in comps[i];
      var j :| 0 <= j < |comps| && b in comps[j];
      assert Within(comps, |comps| - 1, a) && Within(comps, |comps| - 1, b);
      ReachSym(m, r0, a);
      ReachTrans(m, a, r0, b);
    }
  }

  /**
   * The repair after the additions: the components of `m0` are joined in
   * order, each to the next by the closest pair of nodes between them, with
   * a new emergency path recorded under the nodes' labels. Exactly one edge
   * per join is added, nothing else changes, and the result is connected.
   */
  method Repair(m0: Graph, comps: seq<set<NodeId>>, dist: Dist, rnd: real -> real)
    returns (m: Graph, added: seq<Addition>, ghost pairs: seq<(NodeId, NodeId)>)
    requires Valid(m0) && IsComponents(m0, comps) && |comps| > 0
    ensures Valid(m) && m.ids == m0.ids && m.nodes == m0.nodes
    ensures |pairs| == |comps| - 1 && PairsClosest(comps, dist, pairs)
    ensures RepairRecords(m, dist, rnd, pairs, added)
    ensures EdgesKept(m0, m) && OnlyBridges(m0, m, pairs) && |m.edges| == |m0.edges| + |comps| - 1
    ensures Connected(m)
  {
    ghost var r0 :| r0 in comps[0];
    m, added, pairs := m0, [], [];
    assert forall n :: n in comps[0] ==> Reach(m0, r0, n);
    RepairStart(m0, comps, dist, rnd, r0);
    for i := 0 to |comps| - 1
      invariant RepairInv(m0, comps, dist, rnd, r0, m, pairs, added, i)
    {
      StageOf(m0, comps, i);
      var p := ClosestPair(comps[i], comps[i + 1], dist);
      RepairStep(m0, comps, dist, rnd, r0, m, pairs, added, i, p);
      var d := dist(p.0, p.1);
      m := AddEdge(m, p.0, p.1, Edge(EmergencyPath, d));
      added := added + [Addition(m0.nodes[p.0].name, m0.nodes[p.1].name, EmergencyPath, rnd(d), AutoAdded)];
      pairs := pairs + [p];
    }
    RepairConnects(m0, comps, r0, m);
  }

  // ---------------------------------------------------------------------
  // The whole pass
  // ---------------------------------------------------------------------

  /** The graph and lists after the removal requests. */
  function AfterRemovals(g: Graph, removes: seq<Request>): (r: Removing)
    requires Valid(g)
    ensures Valid(r.graph) && r.graph.ids == g.ids && r.graph.nodes == g.nodes
  {
    RemovalsUpTo(g, IndexOf(g), removes, |removes|)
  }

  /** The graph and lists after the removal and then the addition requests, before any repair. */
  function AfterAdditions(g: Graph, dist: Dist, rnd: real -> real, removes: seq<Request>, adds: seq<Request>): (r: Adding)
    requires Valid(g)
    ensures Valid(r.graph) && r.graph.ids == g.ids && r.graph.nodes == g.nodes
  {
    var m := AfterRemovals(g, removes).graph;
    assert IndexIn(IndexOf(g), m);
    AdditionsUpTo(m, IndexOf(g), dist, rnd, adds, |adds|)
  }

  /**
   * What `apply_optimizations` promises of a successful result `h` with
   * changes `c`, given the components `comps` of the graph after the
   * requests, listed in the order of their first node, and the joining
   * pairs `pairs`: `h` has the input's nodes and is
   * connected; the removal lists and the addition failures are those of the
   * two request loops; `edges_added` lists the requested additions followed
   * by one record per join of consecutive components, each the closest pair
   * between them; the joins are the only edges the repair adds, each a new one.
   */
  ghost predicate Outcome(g: Graph, dist: Dist, rnd: real -> real, removes: seq<Request>, adds: seq<Request>,
                          h: Graph, c: Changes, comps: seq<set<NodeId>>, pairs: seq<(NodeId, NodeId)>)
    requires Valid(g)
  {
    var after := AfterAdditions(g, dist, rnd, removes, adds);
    && Valid(h) && h.ids == g.ids && h.nodes == g.nodes && Connected(h)
    && c.edgesRemoved == AfterRemovals(g, removes).removed
    && c.removalFailures == AfterRemovals(g, removes).failed
    && c.additionFailures == after.failed
    && IsComponents(after.graph, comps) && InFirstOrder(after.graph, comps)
    && |pairs| == |comps| - 1 && PairsClosest(comps, dist, pairs)
    && |c.edgesAdded| == |after.added| + |pairs|
    && c.edgesAdded[..|after.added|] == after.added
    && RepairRecords(h, dist, rnd, pairs, c.edgesAdded[|after.added|..])
    && EdgesKept(after.graph, h) && OnlyBridges(after.graph, h, pairs)
    && |h.edges| == |after.graph.edges| + |pairs|
  }

  /** The repair step of `apply_optimizations`: nothing when there is one component, else `Repair`. */
  method Reconnect(m0: Graph, cs: seq<set<NodeId>>, dist: Dist, rnd: real -> real)
    returns (m: Graph, repairs: seq<Addition>, ghost pairs: seq<(NodeId, NodeId)>)
    requires Valid(m0) && IsComponents(m0, cs) && |m0.nodes| > 0
    ensures Valid(m) && m.ids == m0.ids && m.nodes == m0.nodes && Connected(m)
    ensures |pairs| == |cs| - 1 && PairsClosest(cs, dist, pairs) && RepairRecords(m, dist, rnd, pairs, repairs)
    ensures EdgesKept(m0, m) && OnlyBridges(m0, m, pairs) && |m.edges| == |m0.edges| + |pairs|
    ensures |cs| == 1 ==> m == m0 && repairs == []
  {
    ConnectedIffOneComponent(m0, cs);
    ComponentsNonEmpty(m0, cs);
    m, repairs, pairs := m0, [], [];
    if |cs| != 1 {
      m, repairs, pairs := Repair(m0, cs, dist, rnd);
    }
  }

  /** The passes, the components and the repair, put together, give the promised outcome. */
  lemma OutcomeOf(g: Graph, dist: Dist, rnd: real -> real, removes: seq<Request>, adds: seq<Request>,
                  removed: seq<Removal>, removalFailures: seq<Refusal>, m2: Graph, added: seq<Addition>, additionFailures: seq<Refusal>,
                  cs: seq<set<NodeId>>, m: Graph, repairs: seq<Addition>, pairs: seq<(NodeId, NodeId)>)
    requires Valid(g)
    requires AfterRemovals(g, removes).removed == removed && AfterRemovals(g, removes).failed == removalFailures
    requires AfterAdditions(g, dist, rnd, removes, adds) == Adding(m2, added, additionFailures)
    requires IsComponents(m2, cs) && InFirstOrder(m2, cs)
    requires Valid(m) && m.ids == m2.ids && m.nodes == m2.nodes && Connected(m)
    requires |pairs| == |cs| - 1 && PairsClosest(cs, dist, pairs) && RepairRecords(m, dist, rnd, pairs, repairs)
    requires EdgesKept(m2, m) && OnlyBridges(m2, m, pairs) && |m.edges| == |m2.edges| + |pairs|
    ensures Outcome(g, dist, rnd, removes, adds, m, Changes(removed, added + repairs, removalFailures, additionFailures), cs, pairs)
  {
    assert (added + repairs)[|added|..] == repairs;
    assert (added + repairs)[..|added|] == added;
  }

  /** `apply_optimizations`. The null graph is an error, since asking whether it is connected raises. */
  method ApplyOptimizations(g: Graph, dist: Dist, rnd: real -> real, removes: seq<Request>, adds: seq<Request>)
    returns (r: Result<(Graph, Changes)>, ghost comps: seq<set<NodeId>>, ghost pairs: seq<(NodeId, NodeId)>)
    requires Valid(g)
    ensures r.Failure? <==> |g.nodes| == 0
    ensures r.Failure? ==> r.error == NullGraphError
    ensures r.Success? ==> Outcome(g, dist, rnd, removes, adds, r.value.0, r.value.1, comps, pairs)
  {
    var idx := BuildIndex(g);
    var m1, removed, removalFailures := RemovePass(g, idx, removes);
    assert IndexIn(idx, m1);
    var m2, added, additionFailures := AddPass(m1, idx, dist, rnd, adds);
    if |m2.nodes| == 0 {
      return Failure(NullGraphError), [], [];
    }
    var cs := Components(m2);
    comps := cs;
    var m, repairs;
    m, repairs, pairs := Reconnect(m2, cs, dist, rnd);
    OutcomeOf(g, dist, rnd, removes, adds, removed, removalFailures, m2, added, additionFailures, cs, m, repairs, pairs);
    r := Success((m, Changes(removed, added + repairs, removalFailures, additionFailures)));
  }
}
