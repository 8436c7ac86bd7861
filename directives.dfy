/**
 * Applying the language model's directions to the infrastructure graph
 * (`_fuzzy_find` and `_apply_llm_directions` in
 * mitigation/city_infrastructure_network.py): the labels the model writes are
 * resolved to node ids by an exact lookup followed by three fuzzy rules, and
 * then four lists of directives are applied in order, each leaving a change
 * record.
 */
module Directives {
  import opened Wrappers
  import opened Text
  import opened Assoc
  import opened Graphs
  import Infra

  /** The label index `lid`: label to node id, in insertion order. */
  type LabelIndex = Assoc<string, NodeId>

  // ---------------------------------------------------------------------
  // Label resolution
  // ---------------------------------------------------------------------

  /** The fuzzy rules tried after the exact lookup, in this order. */
  datatype Rule = SameCaseless | Substring | WordOverlap

  function Rank(rule: Rule): nat
  {
    match rule
    case SameCaseless => 0
    case Substring => 1
    case WordOverlap => 2
  }

  /** Whether `label` satisfies `rule` for the lowered and stripped name `nl`. */
  predicate Matches(rule: Rule, nl: string, lab: string)
  {
    match rule
    case SameCaseless => Strip(Lower(lab)) == nl
    case Substring => Contains(Lower(lab), nl) || Contains(nl, Lower(lab))
    case WordOverlap => |WordSet(nl) * WordSet(Lower(lab))| >= 2
  }

  predicate MatchesSome(nl: string, lab: string)
  {
    Matches(SameCaseless, nl, lab) || Matches(Substring, nl, lab) || Matches(WordOverlap, nl, lab)
  }

  /** Which entries of `lid` satisfy `rule`, in order. */
  function Hits(lid: LabelIndex, rule: Rule, nl: string): (h: seq<bool>)
    ensures |h| == |lid| && forall j :: 0 <= j < |lid| ==> h[j] == Matches(rule, nl, lid[j].0)
  {
    seq(|lid|, j requires 0 <= j < |lid| => Matches(rule, nl, lid[j].0))
  }

  /** Position `i` holds the first `true` of `hits`. */
  ghost predicate IsFirstTrue(hits: seq<bool>, i: nat)
  {
    i < |hits| && hits[i] && forall j :: 0 <= j < i ==> !hits[j]
  }

  /** The scan `for label, nid in lid.items(): if ...: return nid`, on the precomputed tests. */
  function FirstTrue(hits: seq<bool>): (r: Option<nat>)
    ensures r.None? <==> forall j :: 0 <= j < |hits| ==> !hits[j]
    ensures r.Some? ==> IsFirstTrue(hits, r.value)
  {
    if hits == [] then None
    else if hits[0] then Some(0)
    else
      match FirstTrue(hits[1..])
      case None =>
        assert forall j :: 1 <= j < |hits| ==> hits[j] == hits[1..][j - 1];
        None
      case Some(i) =>
        assert IsFirstTrue(hits, i + 1) by {
          forall j | 0 < j < i + 1
            ensures !hits[j]
          {
            assert hits[j] == hits[1..][j - 1];
          }
          assert hits[i + 1] == hits[1..][i];
        }
        Some(i + 1)
  }

  /** Entry `i` is the first entry of `lid` whose label satisfies `rule`. */
  ghost predicate IsFirst(lid: LabelIndex, rule: Rule, nl: string, i: nat)
  {
    && i < |lid|
    && Matches(rule, nl, lid[i].0)
    && forall j :: 0 <= j < i ==> !Matches(rule, nl, lid[j].0)
  }

  /** The position of the first entry whose label satisfies `rule`. */
  function FirstIndex(lid: LabelIndex, rule: Rule, nl: string): (r: Option<nat>)
    ensures r.None? <==> forall j :: 0 <= j < |lid| ==> !Matches(rule, nl, lid[j].0)
    ensures r.Some? ==> IsFirst(lid, rule, nl, r.value)
  {
    var h := Hits(lid, rule, nl);
    var r := FirstTrue(h);
    assert r.Some? ==> IsFirstTrue(h, r.value);
    r
  }

  /** The id of the first entry meeting `rule`, if any. */
  function ScanRule(lid: LabelIndex, rule: Rule, nl: string): (r: Option<NodeId>)
    ensures r.None? <==> forall j :: 0 <= j < |lid| ==> !Matches(rule, nl, lid[j].0)
    ensures r.Some? ==> exists j :: 0 <= j < |lid| && lid[j].1 == r.value && Matches(rule, nl, lid[j].0)
  {
    match FirstIndex(lid, rule, nl)
    case Some(i) => Some(lid[i].1)
    case None => None
  }

  /** The three fuzzy rules, each tried only when the earlier ones found nothing. */
  function FuzzyScan(lid: LabelIndex, nl: string): (r: Option<NodeId>)
    ensures r.None? <==> forall j :: 0 <= j < |lid| ==> !MatchesSome(nl, lid[j].0)
    ensures r.Some? ==> exists j :: 0 <= j < |lid| && lid[j].1 == r.value && MatchesSome(nl, lid[j].0)
  {
    var a := ScanRule(lid, SameCaseless, nl);
    if a.Some? then a
    else
      var b := ScanRule(lid, Substring, nl);
      if b.Some? then b else ScanRule(lid, WordOverlap, nl)
  }

  /**
   * `_fuzzy_find(name, lid)`: an empty name resolves to nothing; an exact
   * label resolves to its id; otherwise the first label equal to the name up
   * to case and surrounding blanks, then the first label containing or
   * contained in the lowered name, then the first label sharing at least two
   * words with it.
   */
  function FuzzyFind(name: string, lid: LabelIndex): (r: Option<NodeId>)
    ensures r.None? <==> name == "" || (!HasKey(lid, name) && forall j :: 0 <= j < |lid| ==> !MatchesSome(Strip(Lower(name)), lid[j].0))
    ensures name != "" && HasKey(lid, name) ==> r == Get(lid, name)
    ensures r.Some? ==> exists j :: 0 <= j < |lid| && lid[j].1 == r.value && (lid[j].0 == name || MatchesSome(Strip(Lower(name)), lid[j].0))
  {
    if name == "" then None
    else if HasKey(lid, name) then
      GetAt(lid, name);
      Get(lid, name)
    else
      FuzzyScan(lid, Strip(Lower(name)))
  }

  /** With no entry meeting an earlier rule, the scan yields the first entry meeting `rule`. */
  lemma FuzzyScanFirst(lid: LabelIndex, nl: string, rule: Rule, i: nat)
    requires IsFirst(lid, rule, nl, i)
    requires forall earlier: Rule, j :: Rank(earlier) < Rank(rule) && 0 <= j < |lid| ==> !Matches(earlier, nl, lid[j].0)
    ensures FuzzyScan(lid, nl) == Some(lid[i].1)
  {
    assert FirstIndex(lid, rule, nl) == Some(i);
    match rule
    case SameCaseless =>
    case Substring =>
      assert FirstIndex(lid, SameCaseless, nl).None? by {
        forall j | 0 <= j < |lid| ensures !Matches(SameCaseless, nl, lid[j].0) {
          assert Rank(SameCaseless) < Rank(rule);
        }
      }
    case WordOverlap =>
      assert FirstIndex(lid, SameCaseless, nl).None? by {
        forall j | 0 <= j < |lid| ensures !Matches(SameCaseless, nl, lid[j].0) {
          assert Rank(SameCaseless) < Rank(rule);
        }
      }
      assert FirstIndex(lid, Substring, nl).None? by {
        forall j | 0 <= j < |lid| ensures !Matches(Substring, nl, lid[j].0) {
          assert Rank(Substring) < Rank(rule);
        }
      }
  }

  /**
   * The rules are tried in order: when no label is exact and no entry meets
   * an earlier rule, the name resolves to the first entry meeting `rule`.
   */
  lemma FuzzyFindFirst(name: string, lid: LabelIndex, rule: Rule, i: nat)
    requires name != "" && !HasKey(lid, name)
    requires IsFirst(lid, rule, Strip(Lower(name)), i)
    requires forall earlier: Rule, j :: Rank(earlier) < Rank(rule) && 0 <= j < |lid| ==> !Matches(earlier, Strip(Lower(name)), lid[j].0)
    ensures FuzzyFind(name, lid) == Some(lid[i].1)
  {
    FuzzyScanFirst(lid, Strip(Lower(name)), rule, i);
  }

  /**
   * A name made only of blanks is not empty, and once stripped it is a
   * substring of every label: with no exact or caseless hit it resolves to
   * the first entry of the index.
   */
  lemma BlankNameResolvesFirst(name: string, lid: LabelIndex)
    requires name != "" && !HasKey(lid, name) && Strip(Lower(name)) == ""
    requires lid != [] && forall j :: 0 <= j < |lid| ==> !Matches(SameCaseless, "", lid[j].0)
    ensures FuzzyFind(name, lid) == Some(lid[0].1)
  {
    assert Matches(Substring, "", lid[0].0);
    FuzzyFindFirst(name, lid, Substring, 0);
  }

  // ---------------------------------------------------------------------
  // The initial label index
  // ---------------------------------------------------------------------

  /** Labels that are left out of the index. */
  predicate Indexed(lab: string)
  {
    lab != "" && lab != "Intersection"
  }

  function LabelAt(g: Graph, i: nat): string
    requires Valid(g) && i < |g.ids|
  {
    g.nodes[g.ids[i]].name
  }

  /** Every entry of the index names a node of `g` carrying that label. */
  ghost predicate IndexSound(g: Graph, lid: LabelIndex)
  {
    forall i :: 0 <= i < |lid| ==> lid[i].1 in g.nodes && g.nodes[lid[i].1].name == lid[i].0
  }

  /** Some node among the first `j` carries label `l`. */
  ghost predicate Seen(g: Graph, j: nat, l: string)
    requires Valid(g) && j <= |g.ids|
  {
    exists i :: 0 <= i < j && LabelAt(g, i) == l
  }

  lemma SeenStep(g: Graph, j: nat)
    requires Valid(g) && 0 < j <= |g.ids|
    ensures forall l :: Seen(g, j, l) <==> Seen(g, j - 1, l) || LabelAt(g, j - 1) == l
  {
    forall l | Seen(g, j, l) && LabelAt(g, j - 1) != l
      ensures Seen(g, j - 1, l)
    {
      var i :| 0 <= i < j && LabelAt(g, i) == l;
    }
  }

  /**
   * What the index over the first `j` nodes holds: distinct labels, each
   * mapped to a node carrying it, exactly the indexed labels of those nodes.
   */
  ghost predicate IndexFacts(g: Graph, j: nat, lid: LabelIndex)
    requires Valid(g) && j <= |g.ids|
  {
    && UniqueKeys(lid) && IndexSound(g, lid)
    && (forall i :: 0 <= i < |lid| ==> Indexed(lid[i].0))
    && (forall l :: HasKey(lid, l) <==> Indexed(l) && Seen(g, j, l))
  }

  /** Entering the label of node `j - 1` keeps the facts. */
  lemma IndexEnter(g: Graph, j: nat, prev: LabelIndex)
    requires Valid(g) && 0 < j <= |g.ids| && Indexed(LabelAt(g, j - 1))
    requires IndexFacts(g, j - 1, prev)
    ensures IndexFacts(g, j, Put(prev, LabelAt(g, j - 1), g.ids[j - 1]))
  {
    var l, id := LabelAt(g, j - 1), g.ids[j - 1];
    var lid := Put(prev, l, id);
    PutUnique(prev, l, id);
    forall i | 0 <= i < |lid|
      ensures lid[i].1 in g.nodes && g.nodes[lid[i].1].name == lid[i].0 && Indexed(lid[i].0)
    {
      PutEntry(prev, l, id, i);
    }
    forall l' ensures HasKey(lid, l') <==> l' == l || HasKey(prev, l') {
      assert HasKey(lid, l') <==> Get(lid, l').Some?;
      assert HasKey(prev, l') <==> Get(prev, l').Some?;
    }
    SeenStep(g, j);
  }

  /** Skipping the label of node `j - 1` keeps the facts. */
  lemma IndexSkip(g: Graph, j: nat, prev: LabelIndex)
    requires Valid(g) && 0 < j <= |g.ids| && !Indexed(LabelAt(g, j - 1))
    requires IndexFacts(g, j - 1, prev)
    ensures IndexFacts(g, j, prev)
  {
    SeenStep(g, j);
  }

  /**
   * The dictionary comprehension over the first `j` nodes: each label other
   * than "" and "Intersection" maps to the last of those nodes carrying it.
   */
  function LabelIndexUpTo(g: Graph, j: nat): (lid: LabelIndex)
    requires Valid(g) && j <= |g.ids|
  {
    if j == 0 then []
    else
      var prev := LabelIndexUpTo(g, j - 1);
      var l := LabelAt(g, j - 1);
      if Indexed(l) then Put(prev, l, g.ids[j - 1]) else prev
  }

  /** The index over the first `j` nodes has the facts of `IndexFacts`. */
  lemma {:induction false} LabelIndexFacts(g: Graph, j: nat)
    requires Valid(g) && j <= |g.ids|
    ensures IndexFacts(g, j, LabelIndexUpTo(g, j))
  {
    if j > 0 {
      LabelIndexFacts(g, j - 1);
      if Indexed(LabelAt(g, j - 1)) {
        IndexEnter(g, j, LabelIndexUpTo(g, j - 1));
      } else {
        IndexSkip(g, j, LabelIndexUpTo(g, j - 1));
      }
    }
  }

  /** `lid` as `_apply_llm_directions` builds it from the whole graph. */
  function InitialIndex(g: Graph): (lid: LabelIndex)
    requires Valid(g)
    ensures IndexSound(g, lid)
  {
    LabelIndexFacts(g, |g.ids|);
    LabelIndexUpTo(g, |g.ids|)
  }

  /** One node more: its label is entered unless it is left out. */
  lemma LabelIndexNext(g: Graph, j: nat)
    requires Valid(g) && 0 < j <= |g.ids|
    ensures Indexed(LabelAt(g, j - 1)) ==>
              LabelIndexUpTo(g, j) == Put(LabelIndexUpTo(g, j - 1), LabelAt(g, j - 1), g.ids[j - 1])
    ensures !Indexed(LabelAt(g, j - 1)) ==> LabelIndexUpTo(g, j) == LabelIndexUpTo(g, j - 1)
  {
  }

  /** When several nodes share a label, the index keeps the last of them. */
  lemma {:induction false} LastLabelWins(g: Graph, j: nat, i: nat)
    requires Valid(g) && i < j <= |g.ids| && Indexed(LabelAt(g, i))
    requires forall k :: i < k < j ==> LabelAt(g, k) != LabelAt(g, i)
    ensures Get(LabelIndexUpTo(g, j), LabelAt(g, i)) == Some(g.ids[i])
  {
    var prev := LabelIndexUpTo(g, j - 1);
    var l := LabelAt(g, j - 1);
    LabelIndexNext(g, j);
    if j - 1 > i {
      LastLabelWins(g, j - 1, i);
      if Indexed(l) {
        assert Get(Put(prev, l, g.ids[j - 1]), LabelAt(g, i)) == Get(prev, LabelAt(g, i));
      }
    } else {
      assert Get(Put(prev, l, g.ids[j - 1]), l) == Some(g.ids[i]);
    }
  }

  /** A resolved name always denotes a node that carries an indexed label. */
  lemma ResolvedIsLabelled(g: Graph, name: string)
    requires Valid(g)
    ensures FuzzyFind(name, InitialIndex(g)).Some? ==>
      var n := FuzzyFind(name, InitialIndex(g)).value;
      n in g.nodes && Indexed(g.nodes[n].name)
  {
    LabelIndexFacts(g, |g.ids|);
  }

  // ---------------------------------------------------------------------
  // Directions and change records
  // ---------------------------------------------------------------------

  /**
   * One entry of `remove_edges` or `add_edges`; `None` is a key the model
   * left out.
   */
  datatype EdgeDirective = EdgeDirective(from: Option<string>, to: Option<string>, edgeType: Option<string>, reason: Option<string>)

  /** One entry of `add_nodes`; a left-out `connect_to` is the empty list. */
  datatype NodeDirective = NodeDirective(name: Option<string>, infraType: Option<string>, connectTo: seq<string>,
                                         edgeType: Option<string>, reason: Option<string>)

  /** One entry of `reroute`. */
  datatype RerouteDirective = RerouteDirective(from: Option<string>, to: Option<string>, via: Option<string>,
                                               edgeType: Option<string>, reason: Option<string>)

  /** The parsed reply; a left-out list is the empty list. */
  datatype Directions = Directions(removeEdges: seq<EdgeDirective>, addEdges: seq<EdgeDirective>,
                                   addNodes: seq<NodeDirective>, reroute: seq<RerouteDirective>)

  /** A reason text; a long road's reason formats its length, which is left abstract. */
  datatype Reason = Says(text: string) | LongRoad(km: real)

  /** The `action` of a change record, with the fields that action carries. */
  datatype Change =
    | RemovedEdge(from: string, to: string, edgeType: string, reason: Reason)
    | RemoveSkipped(given: Option<string>, givenTo: Option<string>, reason: Reason)
    | AddedEdge(from: string, to: string, edgeType: string, reason: Reason)
    | AddSkipped(given: Option<string>, givenTo: Option<string>, reason: Reason)
    | AddedNode(name: string, infraType: string, connectedTo: seq<string>, reason: Reason)
    | Rerouted(from: string, to: string, via: string, reason: Reason)
    | RerouteSkipped(spec: RerouteDirective, reason: Reason)

  datatype Record = Record(phase: string, change: Change)

  const LlmPhase: string := "llm_optimization"

  predicate Succeeded(c: Change)
  {
    c.RemovedEdge? || c.AddedEdge? || c.AddedNode? || c.Rerouted?
  }

  /** The number of records of operations that took effect. */
  function Successes(cs: seq<Record>): (n: nat)
    ensures n <= |cs|
  {
    if cs == [] then 0
    else Successes(cs[..|cs| - 1]) + (if Succeeded(cs[|cs| - 1].change) then 1 else 0)
  }

  ghost predicate AllTagged(cs: seq<Record>, phase: string)
  {
    forall i :: 0 <= i < |cs| ==> cs[i].phase == phase
  }

  function Attempted(d: Directions): nat
  {
    |d.removeEdges| + |d.addEdges| + |d.addNodes| + |d.reroute|
  }

  // ---------------------------------------------------------------------
  // One directive at a time
  // ---------------------------------------------------------------------

  /** The graph after a directive, its record, and whether it counts as applied. */
  datatype Outcome = Outcome(graph: Graph, change: Change, ok: bool)

  /** `_resolve(es.get(key, ""))`. */
  function Resolve(name: Option<string>, lid: LabelIndex): Option<NodeId>
  {
    FuzzyFind(name.GetOr(""), lid)
  }

  /** Every id in the index is a node of `m`. */
  ghost predicate IndexIn(lid: LabelIndex, m: Graph)
  {
    forall i :: 0 <= i < |lid| ==> lid[i].1 in m.nodes
  }

  /** A resolved id comes from a name that was given and is a node of `m`. */
  predicate ResolvedFrom(r: Option<NodeId>, name: Option<string>, m: Graph)
  {
    r.Some? ==> name.Some? && r.value in m.nodes
  }

  /** Names resolve to nodes of the graph the index was built for; a left-out name resolves to nothing. */
  lemma ResolvedIn(name: Option<string>, lid: LabelIndex, m: Graph)
    requires IndexIn(lid, m)
    ensures ResolvedFrom(Resolve(name, lid), name, m)
  {
  }

  /** The edge every directive adds: its type as given, else "emergency", at weight 1.0. */
  function UnitEdge(edgeType: Option<string>): (e: Edge)
    ensures e.weight == 1.0
  {
    Edge(edgeType.GetOr("emergency"), 1.0)
  }

  /**
   * One `remove_edges` entry whose labels resolved to `fr` and `to`: it takes
   * effect exactly when both resolved and the two nodes are joined; then that
   * edge alone is gone. Otherwise the graph is unchanged and a skip is
   * recorded.
   */
  function RemoveDirective(m: Graph, es: EdgeDirective, fr: Option<NodeId>, to: Option<NodeId>): (o: Outcome)
    requires Valid(m) && ResolvedFrom(fr, es.from, m) && ResolvedFrom(to, es.to, m)
    ensures Valid(o.graph) && o.graph.ids == m.ids && o.graph.nodes == m.nodes
    ensures o.ok <==> fr.Some? && to.Some? && HasEdge(m, fr.value, to.value)
    ensures o.ok ==> fr.Some? && to.Some? && !HasEdge(o.graph, fr.value, to.value)
    ensures o.ok && fr.Some? && to.Some? ==> forall k :: k != Key(fr.value, to.value) ==>
                       (k in o.graph.edges <==> k in m.edges) && (k in m.edges ==> o.graph.edges[k] == m.edges[k])
    ensures !o.ok ==> o.graph == m
    ensures o.ok == Succeeded(o.change)
    ensures o.ok ==> o.change == RemovedEdge(es.from.value, es.to.value, es.edgeType.GetOr("?"), Says(es.reason.GetOr("")))
    ensures !o.ok ==> o.change == RemoveSkipped(es.from, es.to, Says("Not found. LLM reason: " + es.reason.GetOr("")))
  {
    if fr.Some? && to.Some? && HasEdge(m, fr.value, to.value) then
      Outcome(RemoveEdge(m, fr.value, to.value),
              RemovedEdge(es.from.value, es.to.value, es.edgeType.GetOr("?"), Says(es.reason.GetOr(""))), true)
    else
      Outcome(m, RemoveSkipped(es.from, es.to, Says("Not found. LLM reason: " + es.reason.GetOr(""))), false)
  }

  /**
   * One `add_edges` entry whose labels resolved to `fr` and `to`: it takes
   * effect exactly when both resolved; then the two nodes are joined by a
   * weight-1.0 edge of the given type (an existing edge is overwritten) and
   * nothing else changes.
   */
  function AddDirective(m: Graph, es: EdgeDirective, fr: Option<NodeId>, to: Option<NodeId>): (o: Outcome)
    requires Valid(m) && ResolvedFrom(fr, es.from, m) && ResolvedFrom(to, es.to, m)
    ensures Valid(o.graph) && o.graph.ids == m.ids && o.graph.nodes == m.nodes
    ensures o.ok <==> fr.Some? && to.Some?
    ensures o.ok && fr.Some? && to.Some? ==> var k := Key(fr.value, to.value);
                     k in o.graph.edges && o.graph.edges[k] == UnitEdge(es.edgeType)
                     && forall k' :: k' != k ==> (k' in o.graph.edges <==> k' in m.edges) && (k' in m.edges ==> o.graph.edges[k'] == m.edges[k'])
    ensures !o.ok ==> o.graph == m
    ensures o.ok == Succeeded(o.change)
    ensures o.ok ==> o.change == AddedEdge(es.from.value, es.to.value, es.edgeType.GetOr("emergency"), Says(es.reason.GetOr("")))
    ensures !o.ok ==> o.change == AddSkipped(es.from, es.to, Says("Node not found. LLM reason: " + es.reason.GetOr("")))
  {
    if fr.Some? && to.Some? then
      Outcome(AddEdge(m, fr.value, to.value, UnitEdge(es.edgeType)),
              AddedEdge(es.from.value, es.to.value, es.edgeType.GetOr("emergency"), Says(es.reason.GetOr(""))), true)
    else
      Outcome(m, AddSkipped(es.from, es.to, Says("Node not found. LLM reason: " + es.reason.GetOr(""))), false)
  }

  /**
   * One `reroute` entry whose labels resolved to `fr`, `to` and `via`: it
   * takes effect exactly when all three resolved; then the direct edge is
   * dropped and `from`–`via`–`to` is joined by two weight-1.0 edges of the
   * given type; no other pair changes.
   */
  function RerouteOne(m: Graph, rt: RerouteDirective, fr: Option<NodeId>, to: Option<NodeId>, via: Option<NodeId>): (o: Outcome)
    requires Valid(m) && ResolvedFrom(fr, rt.from, m) && ResolvedFrom(to, rt.to, m) && ResolvedFrom(via, rt.via, m)
    ensures Valid(o.graph) && o.graph.ids == m.ids && o.graph.nodes == m.nodes
    ensures o.ok <==> fr.Some? && to.Some? && via.Some?
    ensures o.ok && fr.Some? && to.Some? && via.Some? ==> var f, t, v := fr.value, to.value, via.value;
                     && Key(f, v) in o.graph.edges && o.graph.edges[Key(f, v)] == UnitEdge(rt.edgeType)
                     && Key(v, t) in o.graph.edges && o.graph.edges[Key(v, t)] == UnitEdge(rt.edgeType)
                     && (HasEdge(o.graph, f, t) ==> Key(f, t) == Key(f, v) || Key(f, t) == Key(v, t))
                     && forall k :: k != Key(f, t) && k != Key(f, v) && k != Key(v, t) ==>
                          (k in o.graph.edges <==> k in m.edges) && (k in m.edges ==> o.graph.edges[k] == m.edges[k])
    ensures !o.ok ==> o.graph == m
    ensures o.ok == Succeeded(o.change)
    ensures o.ok ==> o.change == Rerouted(rt.from.value, rt.to.value, rt.via.value, Says(rt.reason.GetOr("")))
    ensures !o.ok ==> o.change == RerouteSkipped(rt, Says("Node not found"))
  {
    if fr.Some? && to.Some? && via.Some? then
      var e := UnitEdge(rt.edgeType);
      var m1 := if HasEdge(m, fr.value, to.value) then RemoveEdge(m, fr.value, to.value) else m;
      var m2 := AddEdge(m1, fr.value, via.value, e);
      var m3 := AddEdge(m2, via.value, to.value, e);
      Outcome(m3, Rerouted(rt.from.value, rt.to.value, rt.via.value, Says(rt.reason.GetOr(""))), true)
    else
      Outcome(m, RerouteSkipped(rt, Says("Node not found")), false)
  }

  // ---------------------------------------------------------------------
  // New nodes
  // ---------------------------------------------------------------------

  function MaxId(ids: seq<NodeId>): (x: NodeId)
    requires ids != []
    ensures x in ids && forall n :: n in ids ==> n <= x
  {
    if |ids| == 1 then ids[0]
    else
      var x := MaxId(ids[1..]);
      assert forall n :: n in ids ==> n == ids[0] || n in ids[1..];
      if ids[0] <= x then x else ids[0]
  }

  /** `max(M.nodes()) + 1 if M.nodes() else 0`: an id above every node. */
  function NextId(g: Graph): (nxt: NodeId)
    ensures forall n :: n in g.ids ==> n < nxt
    ensures g.ids != [] ==> nxt - 1 in g.ids
  {
    if g.ids == [] then 0 else MaxId(g.ids) + 1
  }

  /** The label of a new node: as given, else `Emergency_Node_<id>`. */
  function NodeName(ns: NodeDirective, id: NodeId): string
  {
    ns.name.GetOr("Emergency_Node_" + NatToString(id))
  }

  /** The type of a new node: as given, else "Bunker/Shelter". */
  function NodeType(ns: NodeDirective): string
  {
    ns.infraType.GetOr("Bunker/Shelter")
  }

  /** The node an `add_nodes` entry creates under id `id`. */
  function NewNode(ns: NodeDirective, id: NodeId): Node
  {
    Node(NodeName(ns, id), NodeType(ns), Infra.CategoryOf(NodeType(ns)).GetOr("Shelter"))
  }

  /**
   * A new node's category is the one INFRASTRUCTURE gives its type; a type
   * it does not know, and a left-out type, give "Shelter". A left-out label
   * is `Emergency_Node_` followed by the decimal digits of the id.
   */
  lemma NewNodeFields(ns: NodeDirective, id: NodeId)
    ensures NewNode(ns, id).category in {"Emergency", "Shelter", "Food", "Utility"}
    ensures NewNode(ns, id).infraType !in Infra.InfraTypes ==> NewNode(ns, id).category == "Shelter"
    ensures ns.infraType.None? ==> NewNode(ns, id).infraType == "Bunker/Shelter" && NewNode(ns, id).category == "Shelter"
    ensures ns.name.None? ==> var l := NewNode(ns, id).name;
              |l| > 15 && l[..15] == "Emergency_Node_" && forall i :: 15 <= i < |l| ==> '0' <= l[i] <= '9'
  {
    if ns.name.None? {
      var l := NewNode(ns, id).name;
      assert l == "Emergency_Node_" + NatToString(id);
      assert l[..15] == "Emergency_Node_";
      assert forall i :: 15 <= i < |l| ==> l[i] == NatToString(id)[i - 15];
    }
  }

  /** What each of the names `cs` resolves to, in order. */
  function Resolutions(cs: seq<string>, lid: LabelIndex): (rs: seq<Option<NodeId>>)
    ensures |rs| == |cs|
  {
    if cs == [] then [] else Resolutions(cs[..|cs| - 1], lid) + [FuzzyFind(cs[|cs| - 1], lid)]
  }

  lemma {:induction false} ResolutionsAt(cs: seq<string>, lid: LabelIndex, c: nat)
    requires c < |cs|
    ensures Resolutions(cs, lid)[c] == FuzzyFind(cs[c], lid)
  {
    if c < |cs| - 1 {
      ResolutionsAt(cs[..|cs| - 1], lid, c);
    }
  }

  /** `nxt` is joined to every node among `rs`. */
  ghost predicate Joined(m: Graph, nxt: NodeId, rs: seq<Option<NodeId>>)
  {
    forall j :: 0 <= j < |rs| && rs[j].Some? ==> HasEdge(m, nxt, rs[j].value)
  }

  /** Joining `nxt` to the node of one more name keeps the earlier edges. */
  lemma JoinedStep(rs: seq<Option<NodeId>>, c: nat, m: Graph, m1: Graph, nxt: NodeId)
    requires c < |rs| && Joined(m, nxt, rs[..c]) && m.edges.Keys <= m1.edges.Keys
    requires rs[c].Some? ==> HasEdge(m1, nxt, rs[c].value)
    ensures Joined(m1, nxt, rs[..c + 1])
  {
    var s := rs[..c + 1];
    forall j | 0 <= j < c + 1 && s[j].Some?
      ensures HasEdge(m1, nxt, s[j].value)
    {
      if j < c {
        assert s[j] == rs[..c][j];
      }
    }
  }

  /** `m` keeps every edge of `m0` as it was. */
  ghost predicate KeepsEdges(m0: Graph, m: Graph)
  {
    forall k :: k in m0.edges ==> k in m.edges && m.edges[k] == m0.edges[k]
  }

  /** Every edge of `m` is an edge of `m0`, or an edge from `nxt` of the given kind. */
  ghost predicate OnlyFrom(m0: Graph, m: Graph, nxt: NodeId, e: Edge)
  {
    forall k :: k in m.edges ==> (k in m0.edges && m.edges[k] == m0.edges[k]) || ((k.lo == nxt || k.hi == nxt) && m.edges[k] == e)
  }

  /** Joining the new node `nxt` to `t` keeps both frame facts. */
  lemma ConnectStep(m0: Graph, m: Graph, m1: Graph, nxt: NodeId, t: NodeId, e: Edge)
    requires Valid(m0) && nxt !in m0.nodes
    requires KeepsEdges(m0, m) && OnlyFrom(m0, m, nxt, e)
    requires m1.edges == m.edges[Key(nxt, t) := e]
    ensures KeepsEdges(m0, m1) && OnlyFrom(m0, m1, nxt, e)
  {
    assert Key(nxt, t) !in m0.edges;
  }

  /** The `connect_to` loop: `nxt` is joined by `e` to the node of each name that resolves, in the order of the names. */
  function Connect(m: Graph, lid: LabelIndex, nxt: NodeId, cs: seq<string>, e: Edge): (r: Graph)
    requires Valid(m) && IndexIn(lid, m) && nxt in m.nodes
    ensures Valid(r) && r.ids == m.ids && r.nodes == m.nodes
  {
    if cs == [] then m
    else
      var p := Connect(m, lid, nxt, cs[..|cs| - 1], e);
      var cid := FuzzyFind(cs[|cs| - 1], lid);
      ResolvedIn(Some(cs[|cs| - 1]), lid, p);
      if cid.Some? then AddEdge(p, nxt, cid.value, e) else p
  }

  /**
   * Joining the new node `nxt` to the names `cs` keeps every edge of the
   * graph `m0` it was added to, adds only edges from `nxt` with value `e`,
   * and joins `nxt` to every name that resolves.
   */
  lemma {:induction false} ConnectFacts(m0: Graph, base: Graph, lid: LabelIndex, nxt: NodeId, cs: seq<string>, e: Edge)
    requires Valid(m0) && nxt !in m0.nodes
    requires Valid(base) && IndexIn(lid, base) && nxt in base.nodes && base.edges == m0.edges
    ensures KeepsEdges(m0, Connect(base, lid, nxt, cs, e)) && OnlyFrom(m0, Connect(base, lid, nxt, cs, e), nxt, e)
    ensures Joined(Connect(base, lid, nxt, cs, e), nxt, Resolutions(cs, lid))
  {
    if cs != [] {
      var init := cs[..|cs| - 1];
      var p := Connect(base, lid, nxt, init, e);
      var r := Connect(base, lid, nxt, cs, e);
      var rs := Resolutions(cs, lid);
      ConnectFacts(m0, base, lid, nxt, init, e);
      assert rs[..|cs| - 1] == Resolutions(init, lid);
      var cid := FuzzyFind(cs[|cs| - 1], lid);
      if cid.Some? {
        ConnectStep(m0, p, r, nxt, cid.value, e);
      }
      JoinedStep(rs, |cs| - 1, p, r, nxt);
      assert rs[..|cs|] == rs;
    }
  }

  /** Entering the new node's label keeps every indexed id a node of the graph. */
  lemma IndexPut(m: Graph, lid: LabelIndex, nxt: NodeId, node: Node)
    requires Valid(m) && IndexIn(lid, m) && nxt !in m.nodes
    ensures IndexIn(Put(lid, node.name, nxt), AddNode(m, nxt, node))
  {
    var lid1 := Put(lid, node.name, nxt);
    forall i | 0 <= i < |lid1| ensures lid1[i].1 in AddNode(m, nxt, node).nodes {
      PutEntry(lid, node.name, nxt, i);
    }
  }

  /** One `add_nodes` entry: the graph and the index after it. */
  function NodeAdded(m: Graph, lid: LabelIndex, nxt: NodeId, ns: NodeDirective): (r: (Graph, LabelIndex))
    requires Valid(m) && IndexIn(lid, m) && nxt !in m.nodes
    ensures Valid(r.0) && IndexIn(r.1, r.0) && r.0.ids == m.ids + [nxt] && r.0.nodes == m.nodes[nxt := NewNode(ns, nxt)]
  {
    var node := NewNode(ns, nxt);
    IndexPut(m, lid, nxt, node);
    var lid1 := Put(lid, node.name, nxt);
    (Connect(AddNode(m, nxt, node), lid1, nxt, ns.connectTo, UnitEdge(ns.edgeType)), lid1)
  }

  /**
   * One `add_nodes` entry: node `nxt` is appended with its label, type and
   * category, its label is entered in the index (so later names may resolve
   * to it), and it is joined by a weight-1.0 edge to every `connect_to`
   * label that resolves; the edges already present are kept.
   */
  method AddNodeDirective(m0: Graph, lid0: LabelIndex, nxt: NodeId, ns: NodeDirective)
    returns (m: Graph, lid: LabelIndex)
    requires Valid(m0) && IndexIn(lid0, m0) && nxt !in m0.nodes
    ensures (m, lid) == NodeAdded(m0, lid0, nxt, ns)
    ensures Valid(m) && m.ids == m0.ids + [nxt] && m.nodes == m0.nodes[nxt := NewNode(ns, nxt)]
    ensures lid == Put(lid0, NewNode(ns, nxt).name, nxt) && IndexIn(lid, m)
    ensures KeepsEdges(m0, m) && OnlyFrom(m0, m, nxt, UnitEdge(ns.edgeType))
    ensures Joined(m, nxt, Resolutions(ns.connectTo, lid))
  {
    var node := NewNode(ns, nxt);
    var base := AddNode(m0, nxt, node);
    lid := Put(lid0, node.name, nxt);
    IndexPut(m0, lid0, nxt, node);
    var e := UnitEdge(ns.edgeType);
    m := base;
    for c := 0 to |ns.connectTo|
      invariant m == Connect(base, lid, nxt, ns.connectTo[..c], e)
    {
      var cid := FuzzyFind(ns.connectTo[c], lid);
      assert ns.connectTo[..c + 1][..c] == ns.connectTo[..c];
      if cid.Some? {
        ResolvedIn(Some(ns.connectTo[c]), lid, m);
        m := AddEdge(m, nxt, cid.value, e);
      }
    }
    assert ns.connectTo[..|ns.connectTo|] == ns.connectTo;
    ConnectFacts(m0, base, lid, nxt, ns.connectTo, e);
  }

  // ---------------------------------------------------------------------
  // The four loops on the running graph
  // ---------------------------------------------------------------------

  /** The state the loops of `_apply_llm_directions` update: `M`, `lid`, `changes` and `applied`. */
  datatype Run = Run(graph: Graph, lid: LabelIndex, changes: seq<Record>, applied: nat)

  /** The graph is well formed and the index names only its nodes. */
  ghost predicate Ready(r: Run)
  {
    Valid(r.graph) && IndexIn(r.lid, r.graph)
  }

  /** The run after one more directive with outcome `o`: its graph, its record, and one more applied on success. */
  function Then(r: Run, o: Outcome): Run
  {
    Run(o.graph, r.lid, r.changes + [Record(LlmPhase, o.change)], if o.ok then r.applied + 1 else r.applied)
  }

  /** A `remove_edges` entry applied to the running graph, its labels resolved through the running index. */
  function RemoveOutcome(r: Run, es: EdgeDirective): (o: Outcome)
    requires Ready(r)
    ensures Valid(o.graph) && o.graph.ids == r.graph.ids && o.graph.nodes == r.graph.nodes
    ensures o.ok == Succeeded(o.change) && OfStep(o.change, Removal)
  {
    ResolvedIn(es.from, r.lid, r.graph);
    ResolvedIn(es.to, r.lid, r.graph);
    RemoveDirective(r.graph, es, Resolve(es.from, r.lid), Resolve(es.to, r.lid))
  }

  /** An `add_edges` entry applied to the running graph. */
  function AddOutcome(r: Run, es: EdgeDirective): (o: Outcome)
    requires Ready(r)
    ensures Valid(o.graph) && o.graph.ids == r.graph.ids && o.graph.nodes == r.graph.nodes
    ensures o.ok == Succeeded(o.change) && OfStep(o.change, Addition)
  {
    ResolvedIn(es.from, r.lid, r.graph);
    ResolvedIn(es.to, r.lid, r.graph);
    AddDirective(r.graph, es, Resolve(es.from, r.lid), Resolve(es.to, r.lid))
  }

  /** A `reroute` entry applied to the running graph. */
  function RerouteOutcome(r: Run, rt: RerouteDirective): (o: Outcome)
    requires Ready(r)
    ensures Valid(o.graph) && o.graph.ids == r.graph.ids && o.graph.nodes == r.graph.nodes
    ensures o.ok == Succeeded(o.change) && OfStep(o.change, Rerouting)
  {
    ResolvedIn(rt.from, r.lid, r.graph);
    ResolvedIn(rt.to, r.lid, r.graph);
    ResolvedIn(rt.via, r.lid, r.graph);
    RerouteOne(r.graph, rt, Resolve(rt.from, r.lid), Resolve(rt.to, r.lid), Resolve(rt.via, r.lid))
  }

  /** The `remove_edges` loop over `es`, from the state `r0`. */
  function Removals(r0: Run, es: seq<EdgeDirective>): (r: Run)
    requires Ready(r0)
    ensures Ready(r) && r.graph.ids == r0.graph.ids && r.graph.nodes == r0.graph.nodes && r.lid == r0.lid
    ensures |r.changes| == |r0.changes| + |es|
  {
    if es == [] then r0
    else
      var p := Removals(r0, es[..|es| - 1]);
      Then(p, RemoveOutcome(p, es[|es| - 1]))
  }

  /** The `add_edges` loop over `es`, from the state `r0`. */
  function Additions(r0: Run, es: seq<EdgeDirective>): (r: Run)
    requires Ready(r0)
    ensures Ready(r) && r.graph.ids == r0.graph.ids && r.graph.nodes == r0.graph.nodes && r.lid == r0.lid
    ensures |r.changes| == |r0.changes| + |es|
  {
    if es == [] then r0
    else
      var p := Additions(r0, es[..|es| - 1]);
      Then(p, AddOutcome(p, es[|es| - 1]))
  }

  /** The `reroute` loop over `rts`, from the state `r0`. */
  function Reroutes(r0: Run, rts: seq<RerouteDirective>): (r: Run)
    requires Ready(r0)
    ensures Ready(r) && r.graph.ids == r0.graph.ids && r.graph.nodes == r0.graph.nodes && r.lid == r0.lid
    ensures |r.changes| == |r0.changes| + |rts|
  {
    if rts == [] then r0
    else
      var p := Reroutes(r0, rts[..|rts| - 1]);
      Then(p, RerouteOutcome(p, rts[|rts| - 1]))
  }

  /** One `add_nodes` entry under id `nxt`: the node, its label in the index, its joins and its record, always applied. */
  function NodeNext(r: Run, ns: NodeDirective, nxt: NodeId): (r': Run)
    requires Ready(r) && nxt !in r.graph.nodes
    ensures Ready(r') && r'.graph.ids == r.graph.ids + [nxt] && r'.graph.nodes == r.graph.nodes[nxt := NewNode(ns, nxt)]
  {
    var a := NodeAdded(r.graph, r.lid, nxt, ns);
    Run(a.0, a.1, r.changes + [Record(LlmPhase, NodeRecord(ns, nxt))], r.applied + 1)
  }

  /** The `add_nodes` loop over `nss`, the ids counting up from `start`, which is above every node of `r0`. */
  function NewNodes(r0: Run, nss: seq<NodeDirective>, start: NodeId): (r: Run)
    requires Ready(r0) && forall n :: n in r0.graph.nodes ==> n < start
    ensures Ready(r) && forall n :: n in r.graph.nodes ==> n < start + |nss|
    ensures |r.changes| == |r0.changes| + |nss| && r.applied == r0.applied + |nss|
  {
    if nss == [] then r0
    else
      var p := NewNodes(r0, nss[..|nss| - 1], start);
      NodeNext(p, nss[|nss| - 1], start + |nss| - 1)
  }

  /**
   * Record `k` of the removals is entry `k` applied to the graph the first
   * `k` entries left; it took effect exactly when both labels resolved and
   * the two nodes were joined there.
   */
  lemma {:induction false} RemovalsAt(r0: Run, es: seq<EdgeDirective>, k: nat)
    requires Ready(r0) && k < |es|
    ensures var p := Removals(r0, es[..k]);
            && Removals(r0, es).changes[|r0.changes| + k] == Record(LlmPhase, RemoveOutcome(p, es[k]).change)
            && (Succeeded(RemoveOutcome(p, es[k]).change) <==>
                  Resolve(es[k].from, r0.lid).Some? && Resolve(es[k].to, r0.lid).Some? &&
                  HasEdge(p.graph, Resolve(es[k].from, r0.lid).value, Resolve(es[k].to, r0.lid).value))
  {
    var init := es[..|es| - 1];
    if k < |es| - 1 {
      RemovalsAt(r0, init, k);
      assert init[..k] == es[..k] && init[k] == es[k];
    } else {
      assert init == es[..k];
    }
  }

  /**
   * Record `k` of the additions is entry `k` applied to the graph the first
   * `k` entries left; it took effect exactly when both labels resolved, and
   * then the two nodes are joined by the entry's weight-1.0 edge.
   */
  lemma {:induction false} AdditionsAt(r0: Run, es: seq<EdgeDirective>, k: nat)
    requires Ready(r0) && k < |es|
    ensures var p := Additions(r0, es[..k]);
            var fr, to := Resolve(es[k].from, r0.lid), Resolve(es[k].to, r0.lid);
            && Additions(r0, es).changes[|r0.changes| + k] == Record(LlmPhase, AddOutcome(p, es[k]).change)
            && (Succeeded(AddOutcome(p, es[k]).change) <==> fr.Some? && to.Some?)
            && (fr.Some? && to.Some? ==> Additions(r0, es[..k + 1]).graph.edges[Key(fr.value, to.value)] == UnitEdge(es[k].edgeType))
  {
    var init := es[..|es| - 1];
    if k < |es| - 1 {
      AdditionsAt(r0, init, k);
      assert init[..k] == es[..k] && init[k] == es[k];
    } else {
      assert init == es[..k];
    }
  }

  /**
   * Record `k` of the reroutes is entry `k` applied to the graph the first
   * `k` entries left; it took effect exactly when all three labels resolved.
   */
  lemma {:induction false} ReroutesAt(r0: Run, rts: seq<RerouteDirective>, k: nat)
    requires Ready(r0) && k < |rts|
    ensures var p := Reroutes(r0, rts[..k]);
            && Reroutes(r0, rts).changes[|r0.changes| + k] == Record(LlmPhase, RerouteOutcome(p, rts[k]).change)
            && (Succeeded(RerouteOutcome(p, rts[k]).change) <==>
                  Resolve(rts[k].from, r0.lid).Some? && Resolve(rts[k].to, r0.lid).Some? && Resolve(rts[k].via, r0.lid).Some?)
  {
    var init := rts[..|rts| - 1];
    if k < |rts| - 1 {
      ReroutesAt(r0, init, k);
      assert init[..k] == rts[..k] && init[k] == rts[k];
    } else {
      assert init == rts[..k];
    }
  }

  /** Entry `k` of `add_nodes` leaves its record, for its node under `start + k`, at position `k`. */
  lemma {:induction false} NewNodesAt(r0: Run, nss: seq<NodeDirective>, start: NodeId, k: nat)
    requires Ready(r0) && (forall n :: n in r0.graph.nodes ==> n < start) && k < |nss|
    ensures NewNodes(r0, nss, start).changes[|r0.changes| + k] == Record(LlmPhase, NodeRecord(nss[k], start + k))
  {
    var init := nss[..|nss| - 1];
    if k < |nss| - 1 {
      NewNodesAt(r0, init, start, k);
      assert init[k] == nss[k];
    } else {
      assert init == nss[..k];
    }
  }

  /** One `add_nodes` entry creates its node under `nxt` and joins it to every `connect_to` name that then resolves. */
  lemma NodeNextJoined(r: Run, ns: NodeDirective, nxt: NodeId)
    requires Ready(r) && nxt !in r.graph.nodes
    ensures NewNodeAt(NodeNext(r, ns, nxt).graph, nxt, ns)
    ensures Joined(NodeNext(r, ns, nxt).graph, nxt, Resolutions(ns.connectTo, NodeNext(r, ns, nxt).lid))
  {
    var node := NewNode(ns, nxt);
    IndexPut(r.graph, r.lid, nxt, node);
    ConnectFacts(r.graph, AddNode(r.graph, nxt, node), Put(r.lid, node.name, nxt), nxt, ns.connectTo, UnitEdge(ns.edgeType));
  }

  /** One more `remove_edges` entry is one more step of the fold. */
  lemma RemovalsSnoc(r0: Run, es: seq<EdgeDirective>, i: nat)
    requires Ready(r0) && i < |es|
    ensures Removals(r0, es[..i + 1]) == Then(Removals(r0, es[..i]), RemoveOutcome(Removals(r0, es[..i]), es[i]))
  {
    assert es[..i + 1][..i] == es[..i];
  }

  /** One more `add_edges` entry is one more step of the fold. */
  lemma AdditionsSnoc(r0: Run, es: seq<EdgeDirective>, i: nat)
    requires Ready(r0) && i < |es|
    ensures Additions(r0, es[..i + 1]) == Then(Additions(r0, es[..i]), AddOutcome(Additions(r0, es[..i]), es[i]))
  {
    assert es[..i + 1][..i] == es[..i];
  }

  /** One more `reroute` entry is one more step of the fold. */
  lemma ReroutesSnoc(r0: Run, rts: seq<RerouteDirective>, i: nat)
    requires Ready(r0) && i < |rts|
    ensures Reroutes(r0, rts[..i + 1]) == Then(Reroutes(r0, rts[..i]), RerouteOutcome(Reroutes(r0, rts[..i]), rts[i]))
  {
    assert rts[..i + 1][..i] == rts[..i];
  }

  /** One more `add_nodes` entry is one more step of the fold, under the next id. */
  lemma NewNodesSnoc(r0: Run, nss: seq<NodeDirective>, start: NodeId, i: nat)
    requires Ready(r0) && (forall n :: n in r0.graph.nodes ==> n < start) && i < |nss|
    ensures NewNodes(r0, nss[..i + 1], start) == NodeNext(NewNodes(r0, nss[..i], start), nss[i], start + i)
  {
    assert nss[..i + 1][..i] == nss[..i];
  }

  /** What `_apply_llm_directions` returns: the four loops in order on a copy of `g`, new ids counting up from `NextId(g)`. */
  function LlmDirections(g: Graph, d: Directions): (r: Run)
    requires Valid(g)
    ensures Ready(r) && |r.changes| == Attempted(d)
  {
    var r0 := Run(g, InitialIndex(g), [], 0);
    var r2 := Additions(Removals(r0, d.removeEdges), d.addEdges);
    Reroutes(NewNodes(r2, d.addNodes, NextId(g)), d.reroute)
  }

  // ---------------------------------------------------------------------
  // The whole of `_apply_llm_directions`
  // ---------------------------------------------------------------------

  /** The ids `start`, `start + 1`, ..., `start + n - 1`. */
  function FreshIds(start: NodeId, n: nat): (r: seq<NodeId>)
    ensures |r| == n && forall i :: 0 <= i < n ==> r[i] == start + i
  {
    if n == 0 then [] else FreshIds(start, n - 1) + [start + n - 1]
  }

  /** Every edge that is new or altered since `g` is a weight-1.0 edge. */
  ghost predicate UnitChanges(g: Graph, m: Graph)
  {
    forall k :: k in m.edges ==> (k in g.edges && m.edges[k] == g.edges[k]) || m.edges[k].weight == 1.0
  }

  /** The state the four loops keep: the graph, the records so far, and the counter. */
  ghost predicate Progress(g: Graph, m: Graph, lid: LabelIndex, changes: seq<Record>, applied: nat)
  {
    && Valid(m) && IndexIn(lid, m)
    && (forall n :: n in g.nodes ==> n in m.nodes && m.nodes[n] == g.nodes[n])
    && UnitChanges(g, m)
    && AllTagged(changes, LlmPhase)
    && applied == Successes(changes)
  }

  lemma Record1(changes: seq<Record>, c: Change, applied: nat, ok: bool)
    requires applied == Successes(changes) && AllTagged(changes, LlmPhase) && ok == Succeeded(c)
    ensures (if ok then applied + 1 else applied) == Successes(changes + [Record(LlmPhase, c)])
    ensures AllTagged(changes + [Record(LlmPhase, c)], LlmPhase)
  {
    assert (changes + [Record(LlmPhase, c)])[..|changes|] == changes;
  }

  /** An outcome that keeps the nodes and only adds weight-1.0 edges keeps `Progress`. */
  lemma EdgeOutcome(g: Graph, m: Graph, lid: LabelIndex, changes: seq<Record>, applied: nat, o: Outcome)
    requires Progress(g, m, lid, changes, applied)
    requires Valid(o.graph) && o.graph.ids == m.ids && o.graph.nodes == m.nodes && o.ok == Succeeded(o.change)
    requires forall k :: k in o.graph.edges ==> (k in m.edges && o.graph.edges[k] == m.edges[k]) || o.graph.edges[k].weight == 1.0
    ensures Progress(g, o.graph, lid, changes + [Record(LlmPhase, o.change)], if o.ok then applied + 1 else applied)
  {
    Record1(changes, o.change, applied, o.ok);
  }

  /** The four lists, in the order they are applied. */
  datatype Step = Removal | Addition | Creation | Rerouting

  predicate OfStep(c: Change, s: Step)
  {
    match s
    case Removal => c.RemovedEdge? || c.RemoveSkipped?
    case Addition => c.AddedEdge? || c.AddSkipped?
    case Creation => c.AddedNode?
    case Rerouting => c.Rerouted? || c.RerouteSkipped?
  }

  /** The records at positions `lo` to `hi - 1` come from directives of step `s`. */
  ghost predicate Segment(cs: seq<Record>, lo: nat, hi: nat, s: Step)
  {
    hi <= |cs| && forall k :: lo <= k < hi ==> OfStep(cs[k].change, s)
  }

  /** The record of the `add_nodes` entry `ns`, created under `id`. */
  function NodeRecord(ns: NodeDirective, id: NodeId): Change
  {
    AddedNode(NodeName(ns, id), NodeType(ns), ns.connectTo, Says(ns.reason.GetOr("")))
  }

  /** The records from position `lo` on are those of the first `n` entries of `nss`, created from `start` on. */
  ghost predicate NodeRecords(cs: seq<Record>, lo: nat, nss: seq<NodeDirective>, n: nat, start: NodeId)
  {
    n <= |nss| && lo + n <= |cs| && forall k :: lo <= k < lo + n ==> cs[k].change == NodeRecord(nss[k - lo], start + k - lo)
  }

  ghost predicate NewNodeAt(m: Graph, id: NodeId, ns: NodeDirective)
  {
    id in m.nodes && m.nodes[id] == NewNode(ns, id)
  }

  lemma SegmentAppend(cs: seq<Record>, x: Record, lo: nat, hi: nat, s: Step)
    requires Segment(cs, lo, hi, s)
    ensures Segment(cs + [x], lo, hi, s)
  {
    assert forall k :: lo <= k < hi ==> (cs + [x])[k] == cs[k];
  }

  lemma NodeRecordsAppend(cs: seq<Record>, x: Record, lo: nat, nss: seq<NodeDirective>, n: nat, start: NodeId)
    requires NodeRecords(cs, lo, nss, n, start)
    ensures NodeRecords(cs + [x], lo, nss, n, start)
  {
    assert forall k :: lo <= k < lo + n ==> (cs + [x])[k] == cs[k];
  }

  lemma SegmentExtend(cs: seq<Record>, x: Record, lo: nat, s: Step)
    requires Segment(cs, lo, |cs|, s) && OfStep(x.change, s)
    ensures Segment(cs + [x], lo, |cs| + 1, s)
  {
    assert forall k :: lo <= k < |cs| ==> (cs + [x])[k] == cs[k];
  }

  lemma NodeRecordsExtend(cs: seq<Record>, x: Record, lo: nat, nss: seq<NodeDirective>, n: nat, start: NodeId)
    requires NodeRecords(cs, lo, nss, n, start) && lo + n == |cs| && n < |nss|
    requires x.change == NodeRecord(nss[n], start + n)
    ensures NodeRecords(cs + [x], lo, nss, n + 1, start)
  {
    assert forall k :: lo <= k < lo + n ==> (cs + [x])[k] == cs[k];
    assert (cs + [x])[lo + n] == x;
  }

  lemma NewNodesStep(m: Graph, m1: Graph, start: NodeId, i: nat, nss: seq<NodeDirective>)
    requires i < |nss| && NodesCreated(m, start, nss, i)
    requires m1.nodes == m.nodes[start + i := NewNode(nss[i], start + i)]
    ensures NodesCreated(m1, start, nss, i + 1)
  {
    forall j | 0 <= j < i + 1
      ensures NewNodeAt(m1, start + j, nss[j])
    {
      if j < i {
        assert NewNodeAt(m, start + j, nss[j]);
      }
    }
  }

  /** Adding node `nxt` with edges of weight 1.0 from it keeps `Progress`. */
  lemma NodeOutcome(g: Graph, m: Graph, lid: LabelIndex, changes: seq<Record>, applied: nat,
                    m1: Graph, lid1: LabelIndex, nxt: NodeId, node: Node, e: Edge, c: Change)
    requires Progress(g, m, lid, changes, applied) && nxt !in m.nodes
    requires Valid(m1) && IndexIn(lid1, m1) && m1.nodes == m.nodes[nxt := node]
    requires OnlyFrom(m, m1, nxt, e) && e.weight == 1.0 && c.AddedNode?
    ensures Progress(g, m1, lid1, changes + [Record(LlmPhase, c)], applied + 1)
  {
    Record1(changes, c, applied, true);
  }

  /** The graph after `i` entries of `add_nodes`, the first new id being `start`. */
  ghost predicate NodesAdded(g: Graph, nss: seq<NodeDirective>, start: NodeId, i: nat, m: Graph)
  {
    && i <= |nss|
    && m.ids == g.ids + FreshIds(start, i)
    && (forall n :: n in m.ids ==> n < start + i)
    && NodesCreated(m, start, nss, i)
  }

  /** The first `i` entries of `nss` created their nodes under `start`, `start + 1`, ... */
  ghost predicate NodesCreated(m: Graph, start: NodeId, nss: seq<NodeDirective>, i: nat)
  {
    i <= |nss| && forall j :: 0 <= j < i ==> NewNodeAt(m, start + j, nss[j])
  }

  lemma NodesCreatedSame(m: Graph, m1: Graph, start: NodeId, nss: seq<NodeDirective>, i: nat)
    requires NodesCreated(m, start, nss, i) && m1.nodes == m.nodes
    ensures NodesCreated(m1, start, nss, i)
  {
    forall j | 0 <= j < i
      ensures NewNodeAt(m1, start + j, nss[j])
    {
      assert NewNodeAt(m, start + j, nss[j]);
    }
  }

  lemma NodesAddedStep(g: Graph, nss: seq<NodeDirective>, start: NodeId, i: nat, m: Graph, m1: Graph, nxt: NodeId)
    requires NodesAdded(g, nss, start, i, m) && i < |nss| && nxt == start + i
    requires m1.ids == m.ids + [nxt] && m1.nodes == m.nodes[nxt := NewNode(nss[i], nxt)]
    ensures NodesAdded(g, nss, start, i + 1, m1)
  {
    NewNodesStep(m, m1, start, i, nss);
    assert FreshIds(start, i + 1) == FreshIds(start, i) + [start + i];
    forall n | n in m1.ids
      ensures n < start + i + 1
    {
      if n != start + i {
        assert n in m.ids;
      }
    }
  }

  /** `cs` starts with the records `c0`. */
  ghost predicate Extends(cs: seq<Record>, c0: seq<Record>)
  {
    |c0| <= |cs| && cs[..|c0|] == c0
  }

  lemma ExtendsAppend(cs: seq<Record>, x: Record, c0: seq<Record>)
    requires Extends(cs, c0)
    ensures Extends(cs + [x], c0)
  {
    assert (cs + [x])[..|c0|] == cs[..|c0|];
  }

  lemma ExtendsTrans(c2: seq<Record>, c1: seq<Record>, c0: seq<Record>)
    requires Extends(c2, c1) && Extends(c1, c0)
    ensures Extends(c2, c0)
  {
    assert c2[..|c0|] == c2[..|c1|][..|c0|];
  }

  /** Records already made stay as they were when more are added. */
  lemma SegmentKept(cs: seq<Record>, c0: seq<Record>, lo: nat, hi: nat, s: Step)
    requires Segment(c0, lo, hi, s) && Extends(cs, c0)
    ensures Segment(cs, lo, hi, s)
  {
    forall k | lo <= k < hi
      ensures OfStep(cs[k].change, s)
    {
      assert cs[k] == cs[..|c0|][k];
    }
  }

  lemma NodeRecordsKept(cs: seq<Record>, c0: seq<Record>, lo: nat, nss: seq<NodeDirective>, n: nat, start: NodeId)
    requires NodeRecords(c0, lo, nss, n, start) && Extends(cs, c0)
    ensures NodeRecords(cs, lo, nss, n, start)
  {
    forall k | lo <= k < lo + n
      ensures cs[k].change == NodeRecord(nss[k - lo], start + k - lo)
    {
      assert cs[k] == cs[..|c0|][k];
    }
  }

  /** One entry of the `remove_edges` loop. */
  method RemovalStep(g: Graph, m0: Graph, lid: LabelIndex, c0: seq<Record>, a0: nat, lo: nat, e: EdgeDirective)
    returns (m: Graph, changes: seq<Record>, applied: nat)
    requires Progress(g, m0, lid, c0, a0) && Segment(c0, lo, |c0|, Removal)
    ensures Progress(g, m, lid, changes, applied) && m.ids == m0.ids && m.nodes == m0.nodes
    ensures |changes| == |c0| + 1 && Extends(changes, c0) && Segment(changes, lo, |changes|, Removal)
    ensures Run(m, lid, changes, applied) == Then(Run(m0, lid, c0, a0), RemoveOutcome(Run(m0, lid, c0, a0), e))
  {
    var o := RemoveOutcome(Run(m0, lid, c0, a0), e);
    var x := Record(LlmPhase, o.change);
    EdgeOutcome(g, m0, lid, c0, a0, o);
    SegmentExtend(c0, x, lo, Removal);
    ExtendsAppend(c0, x, c0);
    m := o.graph;
    changes := c0 + [x];
    applied := if o.ok then a0 + 1 else a0;
  }

  /** The `remove_edges` loop: one record per entry, the nodes untouched. */
  method ApplyRemovals(g: Graph, m0: Graph, lid: LabelIndex, c0: seq<Record>, a0: nat, es: seq<EdgeDirective>)
    returns (m: Graph, changes: seq<Record>, applied: nat)
    requires Progress(g, m0, lid, c0, a0)
    ensures Progress(g, m, lid, changes, applied) && m.ids == m0.ids && m.nodes == m0.nodes
    ensures |changes| == |c0| + |es| && Extends(changes, c0) && Segment(changes, |c0|, |changes|, Removal)
    ensures Run(m, lid, changes, applied) == Removals(Run(m0, lid, c0, a0), es)
  {
    m, changes, applied := m0, c0, a0;
    for i := 0 to |es|
      invariant Progress(g, m, lid, changes, applied) && m.ids == m0.ids && m.nodes == m0.nodes
      invariant |changes| == |c0| + i && Extends(changes, c0) && Segment(changes, |c0|, |changes|, Removal)
      invariant Run(m, lid, changes, applied) == Removals(Run(m0, lid, c0, a0), es[..i])
    {
      RemovalsSnoc(Run(m0, lid, c0, a0), es, i);
      var c1 := changes;
      m, changes, applied := RemovalStep(g, m, lid, changes, applied, |c0|, es[i]);
      ExtendsTrans(changes, c1, c0);
    }
    assert es[..|es|] == es;
  }

  /** One entry of the `add_edges` loop. */
  method AdditionStep(g: Graph, m0: Graph, lid: LabelIndex, c0: seq<Record>, a0: nat, lo: nat, e: EdgeDirective)
    returns (m: Graph, changes: seq<Record>, applied: nat)
    requires Progress(g, m0, lid, c0, a0) && Segment(c0, lo, |c0|, Addition)
    ensures Progress(g, m, lid, changes, applied) && m.ids == m0.ids && m.nodes == m0.nodes
    ensures |changes| == |c0| + 1 && Extends(changes, c0) && Segment(changes, lo, |changes|, Addition)
    ensures Run(m, lid, changes, applied) == Then(Run(m0, lid, c0, a0), AddOutcome(Run(m0, lid, c0, a0), e))
  {
    var o := AddOutcome(Run(m0, lid, c0, a0), e);
    var x := Record(LlmPhase, o.change);
    EdgeOutcome(g, m0, lid, c0, a0, o);
    SegmentExtend(c0, x, lo, Addition);
    ExtendsAppend(c0, x, c0);
    m := o.graph;
    changes := c0 + [x];
    applied := if o.ok then a0 + 1 else a0;
  }

  /** The `add_edges` loop: one record per entry, the nodes untouched. */
  method ApplyAdditions(g: Graph, m0: Graph, lid: LabelIndex, c0: seq<Record>, a0: nat, es: seq<EdgeDirective>)
    returns (m: Graph, changes: seq<Record>, applied: nat)
    requires Progress(g, m0, lid, c0, a0)
    ensures Progress(g, m, lid, changes, applied) && m.ids == m0.ids && m.nodes == m0.nodes
    ensures |changes| == |c0| + |es| && Extends(changes, c0) && Segment(changes, |c0|, |changes|, Addition)
    ensures Run(m, lid, changes, applied) == Additions(Run(m0, lid, c0, a0), es)
  {
    m, changes, applied := m0, c0, a0;
    for i := 0 to |es|
      invariant Progress(g, m, lid, changes, applied) && m.ids == m0.ids && m.nodes == m0.nodes
      invariant |changes| == |c0| + i && Extends(changes, c0) && Segment(changes, |c0|, |changes|, Addition)
      invariant Run(m, lid, changes, applied) == Additions(Run(m0, lid, c0, a0), es[..i])
    {
      AdditionsSnoc(Run(m0, lid, c0, a0), es, i);
      var c1 := changes;
      m, changes, applied := AdditionStep(g, m, lid, changes, applied, |c0|, es[i]);
      ExtendsTrans(changes, c1, c0);
    }
    assert es[..|es|] == es;
  }

  /** A reroute keeps every edge or gives it weight 1.0. */
  lemma RerouteUnit(r: Run, rt: RerouteDirective)
    requires Ready(r)
    ensures var o, m := RerouteOutcome(r, rt), r.graph;
            && o.ok == Succeeded(o.change)
            && forall k :: k in o.graph.edges ==> (k in m.edges && o.graph.edges[k] == m.edges[k]) || o.graph.edges[k].weight == 1.0
  {
    var m, lid := r.graph, r.lid;
    ResolvedIn(rt.from, lid, m);
    ResolvedIn(rt.to, lid, m);
    ResolvedIn(rt.via, lid, m);
    var fr, to, via := Resolve(rt.from, lid), Resolve(rt.to, lid), Resolve(rt.via, lid);
    var o := RerouteOne(m, rt, fr, to, via);
    assert RerouteOutcome(r, rt) == o;
    if o.ok {
      var f, t, v := fr.value, to.value, via.value;
      forall k | k in o.graph.edges
        ensures (k in m.edges && o.graph.edges[k] == m.edges[k]) || o.graph.edges[k].weight == 1.0
      {
        if k == Key(f, v) || k == Key(v, t) {
          assert o.graph.edges[k] == UnitEdge(rt.edgeType);
        } else if k == Key(f, t) {
          assert HasEdge(o.graph, f, t);
        }
      }
    }
  }

  /** One entry of the `reroute` loop. */
  method RerouteStep(g: Graph, m0: Graph, lid: LabelIndex, c0: seq<Record>, a0: nat, lo: nat, rt: RerouteDirective)
    returns (m: Graph, changes: seq<Record>, applied: nat)
    requires Progress(g, m0, lid, c0, a0) && Segment(c0, lo, |c0|, Rerouting)
    ensures Progress(g, m, lid, changes, applied) && m.ids == m0.ids && m.nodes == m0.nodes
    ensures |changes| == |c0| + 1 && Extends(changes, c0) && Segment(changes, lo, |changes|, Rerouting)
    ensures Run(m, lid, changes, applied) == Then(Run(m0, lid, c0, a0), RerouteOutcome(Run(m0, lid, c0, a0), rt))
  {
    var r := Run(m0, lid, c0, a0);
    var o := RerouteOutcome(r, rt);
    RerouteUnit(r, rt);
    ThenKeeps(g, r, o, lo, Rerouting);
    var r1 := Then(r, o);
    m, changes, applied := r1.graph, r1.changes, r1.applied;
  }

  /** A step whose outcome keeps the nodes and only adds weight-1.0 edges keeps `Progress` and extends the step's records. */
  lemma ThenKeeps(g: Graph, r: Run, o: Outcome, lo: nat, s: Step)
    requires Progress(g, r.graph, r.lid, r.changes, r.applied) && Segment(r.changes, lo, |r.changes|, s)
    requires Valid(o.graph) && o.graph.ids == r.graph.ids && o.graph.nodes == r.graph.nodes
    requires o.ok == Succeeded(o.change) && OfStep(o.change, s)
    requires forall k :: k in o.graph.edges ==> (k in r.graph.edges && o.graph.edges[k] == r.graph.edges[k]) || o.graph.edges[k].weight == 1.0
    ensures var r1 := Then(r, o);
            && Progress(g, r1.graph, r1.lid, r1.changes, r1.applied) && r1.lid == r.lid
            && |r1.changes| == |r.changes| + 1 && Extends(r1.changes, r.changes) && Segment(r1.changes, lo, |r1.changes|, s)
  {
    var x := Record(LlmPhase, o.change);
    EdgeOutcome(g, r.graph, r.lid, r.changes, r.applied, o);
    SegmentExtend(r.changes, x, lo, s);
    ExtendsAppend(r.changes, x, r.changes);
  }

  /** The `reroute` loop: one record per entry, the nodes untouched. */
  method ApplyReroutes(g: Graph, m0: Graph, lid: LabelIndex, c0: seq<Record>, a0: nat, rts: seq<RerouteDirective>)
    returns (m: Graph, changes: seq<Record>, applied: nat)
    requires Progress(g, m0, lid, c0, a0)
    ensures Progress(g, m, lid, changes, applied) && m.ids == m0.ids && m.nodes == m0.nodes
    ensures |changes| == |c0| + |rts| && Extends(changes, c0) && Segment(changes, |c0|, |changes|, Rerouting)
    ensures Run(m, lid, changes, applied) == Reroutes(Run(m0, lid, c0, a0), rts)
  {
    m, changes, applied := m0, c0, a0;
    for i := 0 to |rts|
      invariant Progress(g, m, lid, changes, applied) && m.ids == m0.ids && m.nodes == m0.nodes
      invariant |changes| == |c0| + i && Extends(changes, c0) && Segment(changes, |c0|, |changes|, Rerouting)
      invariant Run(m, lid, changes, applied) == Reroutes(Run(m0, lid, c0, a0), rts[..i])
    {
      ReroutesSnoc(Run(m0, lid, c0, a0), rts, i);
      var c1 := changes;
      m, changes, applied := RerouteStep(g, m, lid, changes, applied, |c0|, rts[i]);
      ExtendsTrans(changes, c1, c0);
    }
    assert rts[..|rts|] == rts;
  }

  /** One entry of the `add_nodes` loop: the entry's node under `nxt`, its record, counted as applied. */
  method NewNodeStep(g: Graph, m0: Graph, lid0: LabelIndex, c0: seq<Record>, a0: nat, nss: seq<NodeDirective>, start: NodeId, lo: nat, i: nat)
    returns (m: Graph, lid: LabelIndex, changes: seq<Record>, applied: nat)
    requires i < |nss| && lo + i == |c0|
    requires Progress(g, m0, lid0, c0, a0) && NodesAdded(g, nss, start, i, m0) && NodeRecords(c0, lo, nss, i, start)
    ensures Progress(g, m, lid, changes, applied) && NodesAdded(g, nss, start, i + 1, m) && applied == a0 + 1
    ensures |changes| == |c0| + 1 && Extends(changes, c0) && NodeRecords(changes, lo, nss, i + 1, start)
    ensures start + i !in m0.nodes && Ready(Run(m0, lid0, c0, a0))
    ensures Run(m, lid, changes, applied) == NodeNext(Run(m0, lid0, c0, a0), nss[i], start + i)
  {
    var ns := nss[i];
    var nxt := start + i;
    assert nxt !in m0.nodes;
    var m1, lid1 := AddNodeDirective(m0, lid0, nxt, ns);
    var x := Record(LlmPhase, NodeRecord(ns, nxt));
    NodeOutcome(g, m0, lid0, c0, a0, m1, lid1, nxt, NewNode(ns, nxt), UnitEdge(ns.edgeType), NodeRecord(ns, nxt));
    NodesAddedStep(g, nss, start, i, m0, m1, nxt);
    NodeRecordsExtend(c0, x, lo, nss, i, start);
    ExtendsAppend(c0, x, c0);
    m, lid := m1, lid1;
    changes := c0 + [x];
    applied := a0 + 1;
  }

  /**
   * The `add_nodes` loop: the entries get the ids `start`, `start + 1`, ...
   * in order, each its node and its record, and every one counts as applied.
   */
  method ApplyNewNodes(g: Graph, m0: Graph, lid0: LabelIndex, c0: seq<Record>, a0: nat, nss: seq<NodeDirective>, start: NodeId)
    returns (m: Graph, lid: LabelIndex, changes: seq<Record>, applied: nat)
    requires Progress(g, m0, lid0, c0, a0) && NodesAdded(g, nss, start, 0, m0)
    ensures Progress(g, m, lid, changes, applied)
    ensures NodesAdded(g, nss, start, |nss|, m) && applied == a0 + |nss|
    ensures |changes| == |c0| + |nss| && Extends(changes, c0) && NodeRecords(changes, |c0|, nss, |nss|, start)
    ensures forall n :: n in m0.nodes ==> n < start
    ensures Run(m, lid, changes, applied) == NewNodes(Run(m0, lid0, c0, a0), nss, start)
  {
    BelowStart(m0, g, start);
    m, lid, changes, applied := m0, lid0, c0, a0;
    for i := 0 to |nss|
      invariant applied == a0 + i
      invariant Progress(g, m, lid, changes, applied) && NodesAdded(g, nss, start, i, m)
      invariant |changes| == |c0| + i && Extends(changes, c0) && NodeRecords(changes, |c0|, nss, i, start)
      invariant Run(m, lid, changes, applied) == NewNodes(Run(m0, lid0, c0, a0), nss[..i], start)
    {
      NewNodesSnoc(Run(m0, lid0, c0, a0), nss, start, i);
      var c1 := changes;
      m, lid, changes, applied := NewNodeStep(g, m, lid, changes, applied, nss, start, |c0|, i);
      ExtendsTrans(changes, c1, c0);
    }
    assert nss[..|nss|] == nss;
  }

  /** Before the first `add_nodes` entry every node lies below the first new id. */
  lemma BelowStart(m: Graph, g: Graph, start: NodeId)
    requires Valid(m) && forall n :: n in m.ids ==> n < start
    ensures forall n :: n in m.nodes ==> n < start
  {
  }

  /**
   * The records of `_apply_llm_directions`: one per directive, the removals
   * first, then the additions, the new nodes (with the ids from `start` on)
   * and the reroutes, each in the order of its list.
   */
  ghost predicate Logged(d: Directions, start: NodeId, changes: seq<Record>)
  {
    var r0, a0, n0 := |d.removeEdges|, |d.addEdges|, |d.addNodes|;
    && |changes| == Attempted(d)
    && Segment(changes, 0, r0, Removal)
    && Segment(changes, r0, r0 + a0, Addition)
    && NodeRecords(changes, r0 + a0, d.addNodes, n0, start)
    && Segment(changes, r0 + a0 + n0, |changes|, Rerouting)
  }

  /** The four segments in order make up `Logged`. */
  lemma LoggedIntro(d: Directions, start: NodeId, cs: seq<Record>)
    requires |cs| == Attempted(d)
    requires Segment(cs, 0, |d.removeEdges|, Removal)
    requires Segment(cs, |d.removeEdges|, |d.removeEdges| + |d.addEdges|, Addition)
    requires NodeRecords(cs, |d.removeEdges| + |d.addEdges|, d.addNodes, |d.addNodes|, start)
    requires Segment(cs, |d.removeEdges| + |d.addEdges| + |d.addNodes|, |cs|, Rerouting)
    ensures Logged(d, start, cs)
  {
  }

  /** The records of a phase stay in place across two later phases. */
  lemma SegmentKept2(c3: seq<Record>, c2: seq<Record>, c1: seq<Record>, lo: nat, hi: nat, s: Step)
    requires Segment(c1, lo, hi, s) && Extends(c2, c1) && Extends(c3, c2)
    ensures Segment(c3, lo, hi, s)
  {
    ExtendsTrans(c3, c2, c1);
    SegmentKept(c3, c1, lo, hi, s);
  }

  /** The four loops' records, each extending the last, add up to `Logged`. */
  lemma LoggedInOrder(d: Directions, start: NodeId, c1: seq<Record>, c2: seq<Record>, c3: seq<Record>, c4: seq<Record>)
    requires |c1| == |d.removeEdges| && Segment(c1, 0, |c1|, Removal)
    requires |c2| == |c1| + |d.addEdges| && Extends(c2, c1) && Segment(c2, |c1|, |c2|, Addition)
    requires |c3| == |c2| + |d.addNodes| && Extends(c3, c2) && NodeRecords(c3, |c2|, d.addNodes, |d.addNodes|, start)
    requires |c4| == |c3| + |d.reroute| && Extends(c4, c3) && Segment(c4, |c3|, |c4|, Rerouting)
    ensures Segment(c4, 0, |d.removeEdges|, Removal)
    ensures Segment(c4, |d.removeEdges|, |d.removeEdges| + |d.addEdges|, Addition)
    ensures NodeRecords(c4, |d.removeEdges| + |d.addEdges|, d.addNodes, |d.addNodes|, start)
  {
    var r0, a0, n0 := |d.removeEdges|, |d.addEdges|, |d.addNodes|;
    ExtendsTrans(c3, c2, c1);
    SegmentKept2(c4, c3, c1, 0, r0, Removal);
    SegmentKept2(c4, c3, c2, r0, r0 + a0, Addition);
    NodeRecordsKept(c4, c3, r0 + a0, d.addNodes, n0, start);
  }

  /**
   * `_apply_llm_directions(G, directions)`: removals, additions, new nodes
   * and reroutes in this order, one record per directive, in directive
   * order. The old nodes keep their attributes, the new nodes get fresh ids
   * above every old id, every new or altered edge has weight 1.0, and
   * `applied` counts the records of operations that took effect.
   */
  method ApplyLlmDirections(g: Graph, d: Directions) returns (m: Graph, changes: seq<Record>, applied: nat)
    requires Valid(g)
    ensures Valid(m)
    ensures m.ids == g.ids + FreshIds(NextId(g), |d.addNodes|)
    ensures NodesCreated(m, NextId(g), d.addNodes, |d.addNodes|)
    ensures forall n :: n in g.nodes ==> n in m.nodes && m.nodes[n] == g.nodes[n]
    ensures UnitChanges(g, m)
    ensures |changes| == Attempted(d) && AllTagged(changes, LlmPhase)
    ensures applied == Successes(changes) && applied <= Attempted(d)
    ensures Logged(d, NextId(g), changes)
    ensures m == LlmDirections(g, d).graph && changes == LlmDirections(g, d).changes && applied == LlmDirections(g, d).applied
  {
    var lid := InitialIndex(g);
    var r0, a0, n0 := |d.removeEdges|, |d.addEdges|, |d.addNodes|;
    var start := NextId(g);
    var m1, c1, p1 := ApplyRemovals(g, g, lid, [], 0, d.removeEdges);
    var m2, c2, p2 := ApplyAdditions(g, m1, lid, c1, p1, d.addEdges);
    assert FreshIds(start, 0) == [];
    var m3, lid3, c3, p3 := ApplyNewNodes(g, m2, lid, c2, p2, d.addNodes, start);
    m, changes, applied := ApplyReroutes(g, m3, lid3, c3, p3, d.reroute);
    LoggedInOrder(d, start, c1, c2, c3, changes);
    LoggedIntro(d, start, changes);
    NodesCreatedSame(m3, m, start, d.addNodes, n0);
  }
}
