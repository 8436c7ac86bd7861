/**
 * The fallback pruning of `_apply_programmatic_pruning` in
 * mitigation/city_infrastructure_network.py: every edge is judged by a chain
 * of rules (two of them random), the edges judged removable are removed,
 * and then every hospital is linked to the first shelter and every fire
 * station to the first hospital by an emergency edge where none exists.
 *
 * The order in which networkx lists the edges, and the stream of
 * `rng.random()` draws of the seeded generator, are parameters.
 */
module Pruning {
  import opened Wrappers
  import opened Text
  import opened Graphs
  import Directives

  const PrunePhase: string := "programmatic_pruning"

  /** The edge both emergency rules add. */
  const EmergencyEdge: Edge := Edge("emergency", 1.0)

  predicate NonCritical(t: string)
  {
    t in {"Grocery Store", "Food Service", "Telecom Tower", "Substation", "Water Supply"}
  }

  /** Power lines touching these survive an earthquake. */
  predicate PowerExempt(t: string)
  {
    t == "Hospital" || t == "Power Plant"
  }

  /** `[c.lower() for c in calamity_names]`. */
  function LowerAll(names: seq<string>): (r: seq<string>)
    ensures |r| == |names| && forall i :: 0 <= i < |names| ==> r[i] == Lower(names[i])
  {
    if names == [] then [] else [Lower(names[0])] + LowerAll(names[1..])
  }

  /** The two hazards the rules look for among the calamity names. */
  datatype Hazards = Hazards(flood: bool, quake: bool)

  function HazardsOf(names: seq<string>): (hz: Hazards)
    ensures hz.flood <==> exists i :: 0 <= i < |names| && Lower(names[i]) == "flood"
    ensures hz.quake <==> exists i :: 0 <= i < |names| && Lower(names[i]) == "earthquake"
  {
    var ls := LowerAll(names);
    assert forall w :: w in ls <==> exists i :: 0 <= i < |names| && Lower(names[i]) == w;
    Hazards("flood" in ls, "earthquake" in ls)
  }

  /** The rule that removed an edge; `WhyText` gives the reason the record carries. */
  datatype Why =
    | NonCriticalRoad(ut: string, vt: string)
    | LongRoad(km: real)
    | ThroughIntersection
    | FloodRoad
    | QuakePower
    | NonCriticalWater
    | Redundant
    | Kept

  function WhyText(w: Why): Directives.Reason
  {
    match w
    case NonCriticalRoad(ut, vt) => Directives.Says("Road between non-critical " + ut + " and " + vt + " \U{2014} unnecessary during disaster")
    case LongRoad(km) => Directives.LongRoad(km)
    case ThroughIntersection => Directives.Says("Road through intersection \U{2014} not critical infrastructure")
    case FloodRoad => Directives.Says("Road vulnerable to flood damage")
    case QuakePower => Directives.Says("Power line to non-critical node \U{2014} vulnerable to earthquake collapse")
    case NonCriticalWater => Directives.Says("Water pipe between non-critical nodes")
    case Redundant => Directives.Says("Redundant road \U{2014} probabilistic pruning for simpler network")
    case Kept => Directives.Says("")
  }

  /** The verdict on one edge: whether to remove it, by which rule, and how many draws it took. */
  datatype Verdict = Verdict(remove: bool, why: Why, used: nat)

  /** The rules that do not depend on a draw: rules 1, 2, 3, 5 and 6. */
  predicate AlwaysCut(ut: string, vt: string, e: Edge, hz: Hazards)
  {
    || (e.edgeType == "road" && NonCritical(ut) && NonCritical(vt))
    || (e.edgeType == "road" && e.weight > 5.0)
    || (e.edgeType == "road" && (ut == IntersectionType || vt == IntersectionType))
    || (e.edgeType == "power" && hz.quake && !PowerExempt(ut) && !PowerExempt(vt))
    || (e.edgeType == "water" && NonCritical(ut) && NonCritical(vt))
  }

  /**
   * The rule chain for an edge between types `ut` and `vt`, the next draw
   * being `draws(k)`. Under a flood a road the first three rules spare
   * takes a draw for rule 4 and, when that spares it too, a second one for
   * rule 7; without a flood it takes one draw, for rule 7. The test of
   * rule 7 for an emergency or power edge between the two nodes never
   * holds on a road edge, so it always falls through to the draw.
   */
  function Judge(ut: string, vt: string, e: Edge, hz: Hazards, draws: nat -> real, k: nat): (v: Verdict)
    ensures AlwaysCut(ut, vt, e, hz) ==> v.remove && v.used == 0
    ensures e.edgeType != "road" ==> v.used == 0 && (v.remove <==> AlwaysCut(ut, vt, e, hz))
    ensures e.edgeType == "road" && !AlwaysCut(ut, vt, e, hz) ==>
              if hz.flood then
                (v.remove <==> draws(k) < 0.5 || draws(k + 1) < 0.3) && v.used == (if draws(k) < 0.5 then 1 else 2)
              else
                (v.remove <==> draws(k) < 0.3) && v.used == 1
  {
    var road := e.edgeType == "road";
    if road && NonCritical(ut) && NonCritical(vt) then
      Verdict(true, NonCriticalRoad(ut, vt), 0)
    else if road && e.weight > 5.0 then
      Verdict(true, LongRoad(e.weight), 0)
    else if road && (ut == IntersectionType || vt == IntersectionType) then
      Verdict(true, ThroughIntersection, 0)
    else if road && hz.flood && draws(k) < 0.5 then
      Verdict(true, FloodRoad, 1)
    else if e.edgeType == "power" && hz.quake then
      if !PowerExempt(vt) && !PowerExempt(ut) then
        Verdict(true, QuakePower, 0)
      else
        Verdict(false, Kept, 0)
    else if e.edgeType == "water" && NonCritical(ut) && NonCritical(vt) then
      Verdict(true, NonCriticalWater, 0)
    else if road then
      var k' := if hz.flood then k + 1 else k;
      Verdict(draws(k') < 0.3, if draws(k') < 0.3 then Redundant else Kept, k' - k + 1)
    else
      Verdict(false, Kept, 0)
  }

  // ---------------------------------------------------------------------
  // Collecting the edges to remove
  // ---------------------------------------------------------------------

  /**
   * A rule chain: the verdict on an edge between nodes of the two types
   * when the next draw is the `k`-th. The scan below works for any chain.
   */
  type Judgement = (string, string, Edge, nat) -> Verdict

  /** The chain `_apply_programmatic_pruning` applies, for the given hazards and draws. */
  function Chain(hz: Hazards, draws: nat -> real): Judgement
  {
    (ut: string, vt: string, e: Edge, k: nat) => Judge(ut, vt, e, hz, draws, k)
  }

  /** An entry of `edges_to_remove`. */
  datatype Cut = Cut(key: EdgeKey, from: string, to: string, edgeType: string, why: Why)

  /** The verdict on the `i`-th edge when the next draw is the `k`-th. */
  function VerdictAt(g: Graph, order: EdgeOrder, i: nat, judge: Judgement, k: nat): Verdict
    requires Valid(g) && OrderIn(g, order) && i < |order|
  {
    var x := order[i];
    judge(g.nodes[x.u].infraType, g.nodes[x.v].infraType, g.edges[x.key], k)
  }

  function CutAt(g: Graph, order: EdgeOrder, i: nat, why: Why): Cut
    requires Valid(g) && OrderIn(g, order) && i < |order|
  {
    var x := order[i];
    Cut(x.key, g.nodes[x.u].name, g.nodes[x.v].name, g.edges[x.key].edgeType, why)
  }

  /** The scan of the first `j` edges: the cuts so far and the draws taken. */
  datatype Scan = Scan(cuts: seq<Cut>, drawn: nat)

  function ScanUpTo(g: Graph, order: EdgeOrder, j: nat, judge: Judgement): Scan
    requires Valid(g) && OrderIn(g, order) && j <= |order|
  {
    if j == 0 then Scan([], 0)
    else
      var s := ScanUpTo(g, order, j - 1, judge);
      var vd := VerdictAt(g, order, j - 1, judge, s.drawn);
      Scan(if vd.remove then s.cuts + [CutAt(g, order, j - 1, vd.why)] else s.cuts, s.drawn + vd.used)
  }

  /** The keys of the edges `cuts` name. */
  function CutKeys(cuts: seq<Cut>): set<EdgeKey>
  {
    if cuts == [] then {} else CutKeys(cuts[..|cuts| - 1]) + {cuts[|cuts| - 1].key}
  }

  /** The first loop of `_apply_programmatic_pruning`: it collects `edges_to_remove`. */
  method CollectCuts(g: Graph, order: EdgeOrder, hz: Hazards, draws: nat -> real) returns (cuts: seq<Cut>)
    requires Valid(g) && OrderIn(g, order)
    ensures cuts == ScanUpTo(g, order, |order|, Chain(hz, draws)).cuts
  {
    cuts := [];
    var k: nat := 0;
    for i := 0 to |order|
      invariant Scan(cuts, k) == ScanUpTo(g, order, i, Chain(hz, draws))
    {
      var x := order[i];
      var vd := Judge(g.nodes[x.u].infraType, g.nodes[x.v].infraType, g.edges[x.key], hz, draws, k);
      if vd.remove {
        cuts := cuts + [Cut(x.key, g.nodes[x.u].name, g.nodes[x.v].name, g.edges[x.key].edgeType, vd.why)];
      }
      k := k + vd.used;
    }
  }

  /** The cuts keep the order's positions: each names an earlier edge, none twice when the edges are distinct. */
  lemma {:induction false} ScanKeys(g: Graph, order: EdgeOrder, j: nat, judge: Judgement)
    requires Valid(g) && OrderIn(g, order) && j <= |order|
    ensures CutKeys(ScanUpTo(g, order, j, judge).cuts) <= OrderKeys(order, j)
  {
    if j > 0 {
      ScanKeys(g, order, j - 1, judge);
      var s := ScanUpTo(g, order, j - 1, judge);
      var vd := VerdictAt(g, order, j - 1, judge, s.drawn);
      if vd.remove {
        var c := CutAt(g, order, j - 1, vd.why);
        assert (s.cuts + [c])[..|s.cuts|] == s.cuts;
      }
    }
  }

  /** The chain condemns the `i`-th edge at the draws the scan has reached by then. */
  ghost predicate Condemned(g: Graph, order: EdgeOrder, i: nat, judge: Judgement)
    requires Valid(g) && OrderIn(g, order) && i < |order|
  {
    VerdictAt(g, order, i, judge, ScanUpTo(g, order, i, judge).drawn).remove
  }

  /** Among the first `j` edges, the `i`-th is cut exactly when the chain condemns it. */
  lemma {:induction false} ScanCuts(g: Graph, order: EdgeOrder, j: nat, judge: Judgement, i: nat)
    requires Valid(g) && OrderIn(g, order) && DistinctKeys(order) && i < j <= |order|
    ensures KeyAt(order, i) in CutKeys(ScanUpTo(g, order, j, judge).cuts) <==> Condemned(g, order, i, judge)
  {
    ScanKeysStep(g, order, j, judge);
    var before := CutKeys(ScanUpTo(g, order, j - 1, judge).cuts);
    var after := CutKeys(ScanUpTo(g, order, j, judge).cuts);
    var c := Condemned(g, order, j - 1, judge);
    if i < j - 1 {
      ScanCuts(g, order, j - 1, judge, i);
      assert KeyAt(order, i) != KeyAt(order, j - 1);
      StepMember(before, after, KeyAt(order, i), KeyAt(order, j - 1), c);
    } else {
      ScanKeys(g, order, j - 1, judge);
      OrderKeysAvoid(order, j - 1);
      StepMember(before, after, KeyAt(order, i), KeyAt(order, j - 1), c);
    }
  }

  /** A step that adds `y` to a set when `c` holds, and changes nothing otherwise. */
  lemma StepMember<T>(before: set<T>, after: set<T>, x: T, y: T, c: bool)
    requires c ==> after == before + {y}
    requires !c ==> after == before
    ensures x != y ==> (x in after <==> x in before)
    ensures x == y && y !in before ==> (x in after <==> c)
  {
  }

  /** One more edge adds its key to the cut keys exactly when it is condemned. */
  lemma ScanKeysStep(g: Graph, order: EdgeOrder, j: nat, judge: Judgement)
    requires Valid(g) && OrderIn(g, order) && 0 < j <= |order|
    ensures Condemned(g, order, j - 1, judge) ==>
              CutKeys(ScanUpTo(g, order, j, judge).cuts) == CutKeys(ScanUpTo(g, order, j - 1, judge).cuts) + {KeyAt(order, j - 1)}
    ensures !Condemned(g, order, j - 1, judge) ==>
              CutKeys(ScanUpTo(g, order, j, judge).cuts) == CutKeys(ScanUpTo(g, order, j - 1, judge).cuts)
  {
    var s := ScanUpTo(g, order, j - 1, judge);
    var vd := VerdictAt(g, order, j - 1, judge, s.drawn);
    if vd.remove {
      var c := CutAt(g, order, j - 1, vd.why);
      assert (s.cuts + [c])[..|s.cuts|] == s.cuts;
    }
  }

  /** Rules 1, 2, 3, 5 and 6 always remove the edge. */
  lemma AlwaysCutIsCut(g: Graph, order: EdgeOrder, hz: Hazards, draws: nat -> real, i: nat)
    requires Valid(g) && EnumeratesEdges(g, order) && i < |order|
    requires AlwaysCut(g.nodes[order[i].u].infraType, g.nodes[order[i].v].infraType, g.edges[KeyAt(order, i)], hz)
    ensures KeyAt(order, i) !in AfterCuts(g, order, hz, draws).edges
  {
    ScanCuts(g, order, |order|, Chain(hz, draws), i);
  }

  /** Emergency edges, and edges of any type the rules do not name, survive unchanged. */
  lemma OtherTypesKept(g: Graph, order: EdgeOrder, hz: Hazards, draws: nat -> real, i: nat)
    requires Valid(g) && EnumeratesEdges(g, order) && i < |order|
    requires g.edges[KeyAt(order, i)].edgeType !in {"road", "power", "water"}
    ensures KeyAt(order, i) in AfterCuts(g, order, hz, draws).edges
    ensures AfterCuts(g, order, hz, draws).edges[KeyAt(order, i)] == g.edges[KeyAt(order, i)]
  {
    ScanCuts(g, order, |order|, Chain(hz, draws), i);
  }

  // ---------------------------------------------------------------------
  // Applying the removals
  // ---------------------------------------------------------------------

  /** The record of a removal. */
  function CutRecord(c: Cut): Directives.Record
  {
    Directives.Record(PrunePhase, Directives.RemovedEdge(c.from, c.to, c.edgeType, WhyText(c.why)))
  }

  function CutRecords(cuts: seq<Cut>): (rs: seq<Directives.Record>)
    ensures |rs| == |cuts| && forall i :: 0 <= i < |cuts| ==> rs[i] == CutRecord(cuts[i])
  {
    if cuts == [] then [] else CutRecords(cuts[..|cuts| - 1]) + [CutRecord(cuts[|cuts| - 1])]
  }

  /** No two cuts name the same edge. */
  ghost predicate DistinctCuts(cuts: seq<Cut>)
  {
    forall i, j :: 0 <= i < j < |cuts| ==> cuts[i].key != cuts[j].key
  }

  lemma CutKeysAvoid(cuts: seq<Cut>, i: nat)
    requires DistinctCuts(cuts) && i < |cuts|
    ensures cuts[i].key !in CutKeys(cuts[..i])
  {
    var n := i;
    while n > 0
      invariant 0 <= n <= i
      invariant cuts[i].key !in CutKeys(cuts[..i]) <== cuts[i].key !in CutKeys(cuts[..n])
      decreases n
    {
      assert cuts[..n][..n - 1] == cuts[..n - 1];
      n := n - 1;
    }
  }

  lemma CutKeysStep(cuts: seq<Cut>, i: nat)
    requires i < |cuts|
    ensures CutKeys(cuts[..i + 1]) == CutKeys(cuts[..i]) + {cuts[i].key}
  {
    assert cuts[..i + 1][..i] == cuts[..i];
  }

  /**
   * The second loop: every listed edge still present is removed and
   * recorded. Afterwards exactly the listed edges are gone; when the list
   * names distinct edges of the graph, each one yields its record.
   */
  method ApplyCuts(m0: Graph, cuts: seq<Cut>) returns (m: Graph, changes: seq<Directives.Record>)
    requires Valid(m0)
    ensures Valid(m) && m.ids == m0.ids && m.nodes == m0.nodes
    ensures m.edges == m0.edges - CutKeys(cuts)
    ensures |changes| <= |cuts| && Directives.AllTagged(changes, PrunePhase)
    ensures DistinctCuts(cuts) && CutKeys(cuts) <= m0.edges.Keys ==> changes == CutRecords(cuts)
  {
    m, changes := m0, [];
    ghost var exact := DistinctCuts(cuts) && CutKeys(cuts) <= m0.edges.Keys;
    for i := 0 to |cuts|
      invariant Valid(m) && m.ids == m0.ids && m.nodes == m0.nodes
      invariant m.edges == m0.edges - CutKeys(cuts[..i])
      invariant |changes| <= i && Directives.AllTagged(changes, PrunePhase)
      invariant exact ==> changes == CutRecords(cuts[..i])
    {
      var c := cuts[i];
      CutKeysStep(cuts, i);
      if exact {
        CutKeysAvoid(cuts, i);
        assert c.key in CutKeys(cuts) by {
          CutKeysPrefix(cuts, i + 1);
        }
      }
      assert cuts[..i + 1][..i] == cuts[..i];
      if c.key in m.edges {
        assert Key(c.key.lo, c.key.hi) == c.key;
        m := RemoveEdge(m, c.key.lo, c.key.hi);
        changes := changes + [CutRecord(c)];
      }
    }
    assert cuts[..|cuts|] == cuts;
  }

  lemma {:induction false} CutKeysPrefix(cuts: seq<Cut>, n: nat)
    requires n <= |cuts|
    ensures CutKeys(cuts[..n]) <= CutKeys(cuts)
  {
    if n < |cuts| {
      CutKeysPrefix(cuts[..|cuts| - 1], n);
      assert cuts[..|cuts| - 1][..n] == cuts[..n];
    } else {
      assert cuts[..n] == cuts;
    }
  }

  // ---------------------------------------------------------------------
  // Emergency links
  // ---------------------------------------------------------------------

  /** `[n for n in M.nodes() if M.nodes[n].get("infra_type") in ts]`. */
  function OfTypes(g: Graph, ids: seq<NodeId>, ts: set<string>): (r: seq<NodeId>)
    requires forall n :: n in ids ==> n in g.nodes
    ensures forall n :: n in r <==> n in ids && g.nodes[n].infraType in ts
  {
    if ids == [] then []
    else
      var rest := OfTypes(g, ids[..|ids| - 1], ts);
      assert forall n :: n in ids <==> n in ids[..|ids| - 1] || n == ids[|ids| - 1];
      if g.nodes[ids[|ids| - 1]].infraType in ts then rest + [ids[|ids| - 1]] else rest
  }

  /** Every edge `m0` has survives unchanged; the others are new emergency edges. */
  ghost predicate OnlyEmergencyAdded(m0: Graph, m: Graph)
  {
    && (forall k :: k in m0.edges ==> k in m.edges && m.edges[k] == m0.edges[k])
    && (forall k :: k in m.edges && k !in m0.edges ==> m.edges[k] == EmergencyEdge)
  }

  lemma OnlyEmergencyTrans(m0: Graph, m1: Graph, m2: Graph)
    requires OnlyEmergencyAdded(m0, m1) && OnlyEmergencyAdded(m1, m2)
    ensures OnlyEmergencyAdded(m0, m2)
  {
  }

  /** Every node of `xs` is adjacent to `t`. */
  ghost predicate AllLinked(m: Graph, xs: seq<NodeId>, t: NodeId)
  {
    forall x :: x in xs ==> HasEdge(m, x, t)
  }

  /** The record of an emergency edge added towards the node named `to`. */
  predicate LinkRecord(r: Directives.Record, to: string, note: string)
  {
    r.change.AddedEdge? && r.change.to == to && r.change.edgeType == "emergency" && r.change.reason == Directives.Says(note)
  }

  /** The keys of the edges joining `t` to each node of `xs` that `m0` does not already join to it. */
  function NewLinks(m0: Graph, xs: seq<NodeId>, t: NodeId): set<EdgeKey>
  {
    set x | x in xs && !HasEdge(m0, x, t) :: Key(x, t)
  }

  /** `m0` with an emergency edge under each of `NewLinks(m0, xs, t)`. */
  function Linking(m0: Graph, xs: seq<NodeId>, t: NodeId): Graph
  {
    m0.(edges := m0.edges + map k | k in NewLinks(m0, xs, t) :: EmergencyEdge)
  }

  /** The record `{"action": "added_edge", "from": ..., "to": ..., "edge_type": "emergency", ...}` of the edge from `x` to `t`. */
  function LinkOf(m0: Graph, x: NodeId, t: NodeId, note: string): (r: Directives.Record)
    requires x in m0.nodes && t in m0.nodes
    ensures r.phase == PrunePhase && LinkRecord(r, m0.nodes[t].name, note) && r.change.from == m0.nodes[x].name
  {
    Directives.Record(PrunePhase, Directives.AddedEdge(m0.nodes[x].name, m0.nodes[t].name, "emergency", Directives.Says(note)))
  }

  /**
   * The records the loop writes: one per node of `xs`, in list order, whose
   * edge to `t` is missing from `m0`, written at its first occurrence.
   */
  function LinkRecords(m0: Graph, xs: seq<NodeId>, t: NodeId, note: string): seq<Directives.Record>
    requires t in m0.nodes && forall x :: x in xs ==> x in m0.nodes
  {
    if xs == [] then []
    else
      var init := xs[..|xs| - 1];
      var x := xs[|xs| - 1];
      assert forall y :: y in init ==> y in xs;
      LinkRecords(m0, init, t, note) + (if !HasEdge(m0, x, t) && x !in init then [LinkOf(m0, x, t, note)] else [])
  }

  /** `t` is joined to `x` by one of the new edges exactly when `x` is listed and was not already joined. */
  lemma KeyInNewLinks(m0: Graph, xs: seq<NodeId>, x: NodeId, t: NodeId)
    ensures Key(x, t) in NewLinks(m0, xs, t) <==> x in xs && !HasEdge(m0, x, t)
  {
    if Key(x, t) in NewLinks(m0, xs, t) {
      var y :| y in xs && !HasEdge(m0, y, t) && Key(y, t) == Key(x, t);
      KeyEq(y, t, x, t);
    }
  }

  lemma NewLinksSnoc(m0: Graph, xs: seq<NodeId>, x: NodeId, t: NodeId)
    ensures NewLinks(m0, xs + [x], t) == NewLinks(m0, xs, t) + (if HasEdge(m0, x, t) then {} else {Key(x, t)})
  {
    assert forall y :: y in xs + [x] <==> y in xs || y == x;
  }

  /**
   * The joined graph keeps every node and edge of `m0`, adds only emergency
   * edges, and joins every node of `xs` to `t`.
   */
  lemma LinkingFacts(m0: Graph, xs: seq<NodeId>, t: NodeId)
    requires Valid(m0) && t in m0.nodes && forall x :: x in xs ==> x in m0.nodes
    ensures Valid(Linking(m0, xs, t)) && Linking(m0, xs, t).ids == m0.ids && Linking(m0, xs, t).nodes == m0.nodes
    ensures OnlyEmergencyAdded(m0, Linking(m0, xs, t)) && AllLinked(Linking(m0, xs, t), xs, t)
  {
    var m := Linking(m0, xs, t);
    forall x | x in xs
      ensures HasEdge(m, x, t)
    {
      KeyInNewLinks(m0, xs, x, t);
    }
  }

  /** One record per added edge, each naming both endpoints, none more than listed nodes. */
  lemma {:induction false} LinkRecordsFacts(m0: Graph, xs: seq<NodeId>, t: NodeId, note: string)
    requires t in m0.nodes && forall x :: x in xs ==> x in m0.nodes
    ensures |LinkRecords(m0, xs, t, note)| == |NewLinks(m0, xs, t)| <= |xs|
    ensures Directives.AllTagged(LinkRecords(m0, xs, t, note), PrunePhase)
    ensures forall i :: 0 <= i < |LinkRecords(m0, xs, t, note)| ==>
      exists x :: x in xs && !HasEdge(m0, x, t) && LinkRecords(m0, xs, t, note)[i] == LinkOf(m0, x, t, note)
  {
    if xs != [] {
      var init := xs[..|xs| - 1];
      var x := xs[|xs| - 1];
      assert xs == init + [x];
      assert forall y :: y in init ==> y in xs;
      LinkRecordsFacts(m0, init, t, note);
      NewLinksSnoc(m0, init, x, t);
      KeyInNewLinks(m0, init, x, t);
      var rs := LinkRecords(m0, init, t, note);
      assert forall i :: 0 <= i < |rs| ==> LinkRecords(m0, xs, t, note)[i] == rs[i];
    }
  }

  /**
   * The loops over hospitals and fire stations: each node of `xs` not yet
   * joined to `t` gets an emergency edge to it and a record with `note`.
   */
  method LinkAll(m0: Graph, xs: seq<NodeId>, t: NodeId, note: string) returns (m: Graph, changes: seq<Directives.Record>)
    requires Valid(m0) && t in m0.nodes && forall x :: x in xs ==> x in m0.nodes
    ensures m == Linking(m0, xs, t) && changes == LinkRecords(m0, xs, t, note)
  {
    m, changes := m0, [];
    for i := 0 to |xs|
      invariant Valid(m) && m == Linking(m0, xs[..i], t)
      invariant changes == LinkRecords(m0, xs[..i], t, note)
    {
      var x := xs[i];
      LinkStep(m0, xs, t, note, i);
      if !HasEdge(m, x, t) {
        m := AddEdge(m, x, t, EmergencyEdge);
        changes := changes + [Directives.Record(PrunePhase, Directives.AddedEdge(m.nodes[x].name, m.nodes[t].name, "emergency", Directives.Says(note)))];
      }
    }
    assert xs[..|xs|] == xs;
  }

  /** One turn of the loop in `LinkAll`, stated on the joined graph and the records. */
  lemma LinkStep(m0: Graph, xs: seq<NodeId>, t: NodeId, note: string, i: nat)
    requires Valid(m0) && t in m0.nodes && (forall x :: x in xs ==> x in m0.nodes) && i < |xs|
    ensures Valid(Linking(m0, xs[..i], t))
    ensures HasEdge(Linking(m0, xs[..i], t), xs[i], t) <==> HasEdge(m0, xs[i], t) || xs[i] in xs[..i]
    ensures !HasEdge(Linking(m0, xs[..i], t), xs[i], t) ==>
      Linking(m0, xs[..i + 1], t) == AddEdge(Linking(m0, xs[..i], t), xs[i], t, EmergencyEdge)
    ensures HasEdge(Linking(m0, xs[..i], t), xs[i], t) ==> Linking(m0, xs[..i + 1], t) == Linking(m0, xs[..i], t)
    ensures LinkRecords(m0, xs[..i + 1], t, note) == LinkRecords(m0, xs[..i], t, note)
      + (if HasEdge(Linking(m0, xs[..i], t), xs[i], t) then [] else [LinkOf(m0, xs[i], t, note)])
  {
    assert xs[..i + 1] == xs[..i] + [xs[i]];
    assert forall y :: y in xs[..i] ==> y in xs;
    LinkingFacts(m0, xs[..i], t);
    KeyInNewLinks(m0, xs[..i], xs[i], t);
    LinkingSnoc(m0, xs[..i], xs[i], t);
    LinkRecordsSnoc(m0, xs[..i], xs[i], t, note);
  }

  /** Joining one more node adds its edge exactly when it was missing. */
  lemma LinkingSnoc(m0: Graph, ys: seq<NodeId>, x: NodeId, t: NodeId)
    ensures !HasEdge(Linking(m0, ys, t), x, t) ==> Linking(m0, ys + [x], t) == Linking(m0, ys, t).(edges := Linking(m0, ys, t).edges[Key(x, t) := EmergencyEdge])
    ensures HasEdge(Linking(m0, ys, t), x, t) ==> Linking(m0, ys + [x], t) == Linking(m0, ys, t)
  {
    NewLinksSnoc(m0, ys, x, t);
    KeyInNewLinks(m0, ys, x, t);
    if HasEdge(Linking(m0, ys, t), x, t) {
      assert NewLinks(m0, ys + [x], t) == NewLinks(m0, ys, t);
    } else {
      EmergencyMapPlus(m0.edges, NewLinks(m0, ys, t), Key(x, t));
    }
  }

  lemma EmergencyMapPlus(base: map<EdgeKey, Edge>, ks: set<EdgeKey>, k: EdgeKey)
    ensures base + (map j | j in ks + {k} :: EmergencyEdge) == (base + map j | j in ks :: EmergencyEdge)[k := EmergencyEdge]
  {
  }

  lemma LinkRecordsSnoc(m0: Graph, ys: seq<NodeId>, x: NodeId, t: NodeId, note: string)
    requires t in m0.nodes && x in m0.nodes && forall y :: y in ys ==> y in m0.nodes
    ensures forall y :: y in ys + [x] ==> y in m0.nodes
    ensures LinkRecords(m0, ys + [x], t, note) == LinkRecords(m0, ys, t, note)
      + (if !HasEdge(m0, x, t) && x !in ys then [LinkOf(m0, x, t, note)] else [])
  {
    assert (ys + [x])[..|ys|] == ys;
  }

  // ---------------------------------------------------------------------
  // The whole of `_apply_programmatic_pruning`
  // ---------------------------------------------------------------------

  const HospitalTypes: set<string> := {"Hospital"}
  const ShelterTypes: set<string> := {"Bunker/Shelter", "Evacuation Point"}
  const FireTypes: set<string> := {"Fire Station"}

  /** The graph the removals leave: `g` without the listed edges. */
  function AfterCuts(g: Graph, order: EdgeOrder, hz: Hazards, draws: nat -> real): Graph
    requires Valid(g) && OrderIn(g, order)
  {
    g.(edges := g.edges - CutKeys(ScanUpTo(g, order, |order|, Chain(hz, draws)).cuts))
  }

  /**
   * What the emergency phase guarantees over the graph `m1` the removals
   * left: only emergency edges are added, every hospital is joined to the
   * first shelter and every fire station to the first hospital.
   */
  ghost predicate Linked(m1: Graph, m: Graph)
    requires Valid(m1)
  {
    var hs := OfTypes(m1, m1.ids, HospitalTypes);
    var ss := OfTypes(m1, m1.ids, ShelterTypes);
    var fs := OfTypes(m1, m1.ids, FireTypes);
    && OnlyEmergencyAdded(m1, m)
    && (hs != [] && ss != [] ==> AllLinked(m, hs, ss[0]))
    && (fs != [] && hs != [] ==> AllLinked(m, fs, hs[0]))
  }

  /** The two loops that collect and then remove the edges the rule chain condemns. */
  method RemovalPhase(g: Graph, order: EdgeOrder, hz: Hazards, draws: nat -> real)
    returns (m: Graph, changes: seq<Directives.Record>)
    requires Valid(g) && EnumeratesEdges(g, order)
    ensures Valid(m) && m == AfterCuts(g, order, hz, draws)
    ensures changes == Removals(g, order, hz, draws)
  {
    var cuts := CollectCuts(g, order, hz, draws);
    CutsDistinct(g, order, Chain(hz, draws));
    m, changes := ApplyCuts(g, cuts);
  }

  /** The graph `if xs and targets:` leaves: every node of `xs` joined to `targets[0]`. */
  function Joined(m0: Graph, xs: seq<NodeId>, targets: seq<NodeId>): (r: Graph)
    ensures r.ids == m0.ids && r.nodes == m0.nodes
  {
    if xs != [] && targets != [] then Linking(m0, xs, targets[0]) else m0
  }

  /** The records `if xs and targets:` writes. */
  function JoinRecords(m0: Graph, xs: seq<NodeId>, targets: seq<NodeId>, note: string): seq<Directives.Record>
    requires (forall x :: x in xs ==> x in m0.nodes) && (forall t :: t in targets ==> t in m0.nodes)
  {
    if xs != [] && targets != [] then LinkRecords(m0, xs, targets[0], note) else []
  }

  /** `if xs and targets:` followed by the loop joining each of `xs` to `targets[0]`. */
  method LinkToFirst(m0: Graph, xs: seq<NodeId>, targets: seq<NodeId>, note: string)
    returns (m: Graph, changes: seq<Directives.Record>)
    requires Valid(m0) && (forall x :: x in xs ==> x in m0.nodes) && (forall t :: t in targets ==> t in m0.nodes)
    ensures m == Joined(m0, xs, targets) && changes == JoinRecords(m0, xs, targets, note)
  {
    m, changes := m0, [];
    if xs != [] && targets != [] {
      m, changes := LinkAll(m0, xs, targets[0], note);
    }
  }

  /** The joined graph is valid, adds only emergency edges and links `xs` when both lists are non-empty. */
  lemma JoinedFacts(m0: Graph, xs: seq<NodeId>, targets: seq<NodeId>, note: string)
    requires Valid(m0) && (forall x :: x in xs ==> x in m0.nodes) && (forall t :: t in targets ==> t in m0.nodes)
    ensures Valid(Joined(m0, xs, targets)) && OnlyEmergencyAdded(m0, Joined(m0, xs, targets))
    ensures xs != [] && targets != [] ==> AllLinked(Joined(m0, xs, targets), xs, targets[0])
    ensures Directives.AllTagged(JoinRecords(m0, xs, targets, note), PrunePhase)
  {
    if xs != [] && targets != [] {
      LinkingFacts(m0, xs, targets[0]);
      LinkRecordsFacts(m0, xs, targets[0], note);
    }
  }

  const HospitalNote: string := "Emergency evacuation path: hospital to nearest shelter"
  const FireNote: string := "Emergency response route: fire station to hospital"

  /** The graph after hospitals are joined to the first shelter and fire stations to the first hospital. */
  function EmergencyGraph(m1: Graph): (r: Graph)
    requires Valid(m1)
    ensures r.ids == m1.ids && r.nodes == m1.nodes
  {
    var hs := OfTypes(m1, m1.ids, HospitalTypes);
    var ss := OfTypes(m1, m1.ids, ShelterTypes);
    var fs := OfTypes(m1, m1.ids, FireTypes);
    Joined(Joined(m1, hs, ss), fs, hs)
  }

  /** The records of those two loops: the hospital links, then the fire-station links. */
  function EmergencyRecords(m1: Graph): seq<Directives.Record>
    requires Valid(m1)
  {
    var hs := OfTypes(m1, m1.ids, HospitalTypes);
    var ss := OfTypes(m1, m1.ids, ShelterTypes);
    var fs := OfTypes(m1, m1.ids, FireTypes);
    JoinRecords(m1, hs, ss, HospitalNote) + JoinRecords(Joined(m1, hs, ss), fs, hs, FireNote)
  }

  /** The emergency phase only adds, links both kinds of node, and tags its records. */
  lemma EmergencyFacts(m1: Graph)
    requires Valid(m1)
    ensures Valid(EmergencyGraph(m1)) && Linked(m1, EmergencyGraph(m1))
    ensures Directives.AllTagged(EmergencyRecords(m1), PrunePhase)
  {
    var hs := OfTypes(m1, m1.ids, HospitalTypes);
    var ss := OfTypes(m1, m1.ids, ShelterTypes);
    var fs := OfTypes(m1, m1.ids, FireTypes);
    var m2 := Joined(m1, hs, ss);
    JoinedFacts(m1, hs, ss, HospitalNote);
    JoinedFacts(m2, fs, hs, FireNote);
    OnlyEmergencyTrans(m1, m2, EmergencyGraph(m1));
    LinkedKept(m2, EmergencyGraph(m1), hs, ss);
  }

  /** The loops that join hospitals to the first shelter and fire stations to the first hospital. */
  method EmergencyPhase(m1: Graph) returns (m: Graph, changes: seq<Directives.Record>)
    requires Valid(m1)
    ensures m == EmergencyGraph(m1) && changes == EmergencyRecords(m1)
  {
    var hs := OfTypes(m1, m1.ids, HospitalTypes);
    var ss := OfTypes(m1, m1.ids, ShelterTypes);
    var fs := OfTypes(m1, m1.ids, FireTypes);
    var m2, c2 := LinkToFirst(m1, hs, ss, HospitalNote);
    JoinedFacts(m1, hs, ss, HospitalNote);
    var c3;
    m, c3 := LinkToFirst(m2, fs, hs, FireNote);
    changes := c2 + c3;
  }

  /** Edges `m` has survive into `m'`, so the hospitals stay linked. */
  lemma LinkedKept(m: Graph, m': Graph, hs: seq<NodeId>, ss: seq<NodeId>)
    requires OnlyEmergencyAdded(m, m')
    ensures hs != [] && ss != [] && AllLinked(m, hs, ss[0]) ==> AllLinked(m', hs, ss[0])
  {
  }

  /**
   * `_apply_programmatic_pruning(G, calamity_names)`: the nodes are kept;
   * the edges are those the rule chain spares, plus emergency edges that
   * join every hospital to the first shelter and every fire station to the
   * first hospital, each added only where no edge was. The records, all
   * tagged "programmatic_pruning", are the removals in list order followed
   * by one addition record per added edge.
   */
  method ProgrammaticPruning(g: Graph, names: seq<string>, order: EdgeOrder, draws: nat -> real)
    returns (m: Graph, changes: seq<Directives.Record>)
    requires Valid(g) && EnumeratesEdges(g, order)
    ensures m == EmergencyGraph(AfterCuts(g, order, HazardsOf(names), draws))
    ensures changes == Removals(g, order, HazardsOf(names), draws) + EmergencyRecords(AfterCuts(g, order, HazardsOf(names), draws))
  {
    var hz := HazardsOf(names);
    var m1, c1 := RemovalPhase(g, order, hz, draws);
    var c2;
    m, c2 := EmergencyPhase(m1);
    changes := c1 + c2;
  }

  /**
   * What the pruning leaves: a valid graph on the same nodes, emergency
   * links in place over the spared edges, and every record tagged.
   */
  lemma PruningFacts(g: Graph, names: seq<string>, order: EdgeOrder, draws: nat -> real)
    requires Valid(g) && EnumeratesEdges(g, order)
    ensures Valid(EmergencyGraph(AfterCuts(g, order, HazardsOf(names), draws)))
    ensures EmergencyGraph(AfterCuts(g, order, HazardsOf(names), draws)).nodes == g.nodes
    ensures Linked(AfterCuts(g, order, HazardsOf(names), draws), EmergencyGraph(AfterCuts(g, order, HazardsOf(names), draws)))
    ensures Directives.AllTagged(Removals(g, order, HazardsOf(names), draws) + EmergencyRecords(AfterCuts(g, order, HazardsOf(names), draws)), PrunePhase)
  {
    EmergencyFacts(AfterCuts(g, order, HazardsOf(names), draws));
  }

  /** The records of the removals, in the order the edges were listed. */
  function Removals(g: Graph, order: EdgeOrder, hz: Hazards, draws: nat -> real): seq<Directives.Record>
    requires Valid(g) && OrderIn(g, order)
  {
    CutRecords(ScanUpTo(g, order, |order|, Chain(hz, draws)).cuts)
  }

  /** The listed edges are distinct edges of `g`. */
  lemma CutsDistinct(g: Graph, order: EdgeOrder, judge: Judgement)
    requires Valid(g) && EnumeratesEdges(g, order)
    ensures DistinctCuts(ScanUpTo(g, order, |order|, judge).cuts)
    ensures CutKeys(ScanUpTo(g, order, |order|, judge).cuts) <= g.edges.Keys
  {
    ScanDistinct(g, order, |order|, judge);
    ScanKeys(g, order, |order|, judge);
    OrderKeysIn(g, order, |order|);
  }

  lemma {:induction false} ScanDistinct(g: Graph, order: EdgeOrder, j: nat, judge: Judgement)
    requires Valid(g) && OrderIn(g, order) && DistinctKeys(order) && j <= |order|
    ensures DistinctCuts(ScanUpTo(g, order, j, judge).cuts)
  {
    if j > 0 {
      ScanDistinct(g, order, j - 1, judge);
      var s := ScanUpTo(g, order, j - 1, judge);
      var vd := VerdictAt(g, order, j - 1, judge, s.drawn);
      if vd.remove {
        var c := CutAt(g, order, j - 1, vd.why);
        var r := s.cuts + [c];
        ScanKeys(g, order, j - 1, judge);
        OrderKeysAvoid(order, j - 1);
        forall a | 0 <= a < |s.cuts|
          ensures s.cuts[a].key != KeyAt(order, j - 1)
        {
          CutKeysHas(s.cuts, a);
        }
        forall a, b | 0 <= a < b < |r|
          ensures r[a].key != r[b].key
        {
          if b < |s.cuts| {
            assert r[a] == s.cuts[a] && r[b] == s.cuts[b];
          } else {
            assert r[a] == s.cuts[a];
          }
        }
      }
    }
  }

  lemma {:induction false} CutKeysHas(cuts: seq<Cut>, a: nat)
    requires a < |cuts|
    ensures cuts[a].key in CutKeys(cuts)
  {
    if a < |cuts| - 1 {
      CutKeysHas(cuts[..|cuts| - 1], a);
    }
  }
}
