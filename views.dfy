/**
 * The read-only views of the infrastructure graph: the adjacency list
 * `build_adjacency_list` (and its twin `_build_adj`) sends to the optimiser,
 * its compact and per-type forms, the label-to-type map, and the counting
 * parts of the two statistics functions.
 *
 * Neighbour order (`G.neighbors`), the rounding of distances, and the
 * centrality and path-length values networkx computes are parameters.
 */
module Views {
  import opened Wrappers
  import opened Graphs
  import opened Assoc
  import opened Sorting

  // ---------------------------------------------------------------------
  // The detailed adjacency list
  // ---------------------------------------------------------------------

  /** `{"neighbor": ..., "edge_type": ..., "distance": ...}`. */
  datatype Entry = Entry(neighbor: string, edgeType: string, distance: real)

  /** Label to the sorted neighbour entries of that node. */
  type Adjacency = Assoc<string, seq<Entry>>

  /** `G.neighbors(n)`, in the graph's adjacency order. */
  type NeighborOrder = NodeId -> seq<NodeId>

  /** `nbrs(n)` lists exactly the nodes that share an edge with `n`. */
  ghost predicate ListsNeighbors(g: Graph, nbrs: NeighborOrder)
  {
    forall n, x {:trigger x in nbrs(n)} {:trigger HasEdge(g, n, x)} ::
      n in g.nodes ==> (x in nbrs(n) <==> x in g.nodes && HasEdge(g, n, x))
  }

  /** No two nodes carry the same label. */
  ghost predicate UniqueLabels(g: Graph)
  {
    forall a, b {:trigger g.nodes[a], g.nodes[b]} :: a in g.nodes && b in g.nodes && a != b ==> g.nodes[a].name != g.nodes[b].name
  }

  function Distance(e: Entry): real
  {
    e.distance
  }

  /** The entry for the neighbour `x` of `n`; `rnd` is the rounding applied to the weight. */
  function EntryFor(g: Graph, n: NodeId, x: NodeId, rnd: real -> real): Entry
    requires x in g.nodes && HasEdge(g, n, x)
  {
    Entry(g.nodes[x].name, g.edges[Key(n, x)].edgeType, rnd(g.edges[Key(n, x)].weight))
  }

  /** `x` is a neighbour of `n` that the inner loop keeps. */
  predicate Kept(g: Graph, n: NodeId, x: NodeId)
  {
    x in g.nodes && HasEdge(g, n, x) && !IsIntersection(g, x)
  }

  /**
   * The list the inner loop builds from the neighbours `xs`: an entry for
   * each one that is not an intersection. (Under `ListsNeighbors` every
   * member of `xs` is a node joined to `n`.)
   */
  function Row(g: Graph, n: NodeId, xs: seq<NodeId>, rnd: real -> real): seq<Entry>
  {
    if xs == [] then []
    else
      var x := xs[|xs| - 1];
      var r := Row(g, n, xs[..|xs| - 1], rnd);
      if Kept(g, n, x) then r + [EntryFor(g, n, x, rnd)] else r
  }

  /** The value stored under the label of each node: its row sorted by distance. */
  function Rows(g: Graph, nbrs: NeighborOrder, rnd: real -> real): NodeId -> seq<Entry>
  {
    (n: NodeId) => SortBy(Row(g, n, nbrs(n), rnd), Distance)
  }

  /** The inner loop: the entries of the non-intersection neighbours of `n`, in neighbour order. */
  method NeighborEntries(g: Graph, nbrs: NeighborOrder, n: NodeId, rnd: real -> real) returns (nbs: seq<Entry>)
    requires Valid(g) && ListsNeighbors(g, nbrs) && n in g.nodes
    ensures nbs == Row(g, n, nbrs(n), rnd)
  {
    var xs := nbrs(n);
    nbs := [];
    for j := 0 to |xs|
      invariant nbs == Row(g, n, xs[..j], rnd)
    {
      var x := xs[j];
      assert xs[..j + 1][..j] == xs[..j];
      assert x in g.nodes && HasEdge(g, n, x);
      if !IsIntersection(g, x) {
        nbs := nbs + [EntryFor(g, n, x, rnd)];
      }
    }
    assert xs[..|xs|] == xs;
  }

  // ---------------------------------------------------------------------
  // Dictionaries keyed by label
  // ---------------------------------------------------------------------

  /**
   * `{label(n): f(n)}` over the first `i` node ids, skipping intersections:
   * a later node with a label already present overwrites its value in place.
   */
  function ByLabel<V>(g: Graph, i: nat, f: NodeId -> V): Assoc<string, V>
    requires Valid(g) && i <= |g.ids|
  {
    if i == 0 then []
    else
      var a := ByLabel(g, i - 1, f);
      var n := g.ids[i - 1];
      if IsIntersection(g, n) then a else Put(a, g.nodes[n].name, f(n))
  }

  /** Some node among the first `i` ids is not an intersection and is labelled `l`. */
  ghost predicate LabelledBefore(g: Graph, i: nat, l: string)
    requires Valid(g) && i <= |g.ids|
  {
    exists j :: 0 <= j < i && !IsIntersection(g, g.ids[j]) && g.nodes[g.ids[j]].name == l
  }

  lemma LabelledStep(g: Graph, i: nat, l: string)
    requires Valid(g) && 0 < i <= |g.ids|
    ensures LabelledBefore(g, i, l) <==>
              LabelledBefore(g, i - 1, l) || (!IsIntersection(g, g.ids[i - 1]) && g.nodes[g.ids[i - 1]].name == l)
  {
  }

  /** Over all the ids, a label is met exactly when some non-intersection node carries it. */
  lemma LabelledAll(g: Graph, l: string)
    requires Valid(g)
    ensures LabelledBefore(g, |g.ids|, l) <==> exists n :: n in g.nodes && !IsIntersection(g, n) && g.nodes[n].name == l
  {
    if exists n :: n in g.nodes && !IsIntersection(g, n) && g.nodes[n].name == l {
      var n :| n in g.nodes && !IsIntersection(g, n) && g.nodes[n].name == l;
      var j :| 0 <= j < |g.ids| && g.ids[j] == n;
    }
  }

  /** The keys are exactly the labels of the non-intersection nodes visited. */
  lemma {:induction false} ByLabelKeys<V>(g: Graph, i: nat, f: NodeId -> V, l: string)
    requires Valid(g) && i <= |g.ids|
    ensures HasKey(ByLabel(g, i, f), l) <==> LabelledBefore(g, i, l)
  {
    if i > 0 {
      ByLabelKeys(g, i - 1, f, l);
      LabelledStep(g, i, l);
      var n := g.ids[i - 1];
      if !IsIntersection(g, n) {
        PutKeys(ByLabel(g, i - 1, f), g.nodes[n].name, f(n), l);
      }
    }
  }

  /** The value under a label is `f` of a non-intersection node with that label. */
  lemma {:induction false} ByLabelValue<V>(g: Graph, i: nat, f: NodeId -> V, l: string)
    requires Valid(g) && i <= |g.ids| && HasKey(ByLabel(g, i, f), l)
    ensures exists j :: 0 <= j < i && !IsIntersection(g, g.ids[j]) && g.nodes[g.ids[j]].name == l
                        && Get(ByLabel(g, i, f), l) == Some(f(g.ids[j]))
  {
    var n := g.ids[i - 1];
    var a := ByLabel(g, i - 1, f);
    if !IsIntersection(g, n) && g.nodes[n].name == l {
      assert Get(ByLabel(g, i, f), l) == Some(f(n));
    } else {
      if !IsIntersection(g, n) {
        PutKeys(a, g.nodes[n].name, f(n), l);
        assert Get(ByLabel(g, i, f), l) == Get(a, l);
      }
      ByLabelValue(g, i - 1, f, l);
      var j :| 0 <= j < i - 1 && !IsIntersection(g, g.ids[j]) && g.nodes[g.ids[j]].name == l
                && Get(a, l) == Some(f(g.ids[j]));
    }
  }

  /** Every stored pair is the label of some visited non-intersection node and `f` of it. */
  lemma {:induction false} ByLabelEntry<V>(g: Graph, i: nat, f: NodeId -> V, k: nat)
    requires Valid(g) && i <= |g.ids| && k < |ByLabel(g, i, f)|
    ensures exists j :: 0 <= j < i && !IsIntersection(g, g.ids[j]) && ByLabel(g, i, f)[k] == (g.nodes[g.ids[j]].name, f(g.ids[j]))
  {
    var n := g.ids[i - 1];
    var a := ByLabel(g, i - 1, f);
    if IsIntersection(g, n) {
      ByLabelEntry(g, i - 1, f, k);
      var j :| 0 <= j < i - 1 && !IsIntersection(g, g.ids[j]) && a[k] == (g.nodes[g.ids[j]].name, f(g.ids[j]));
    } else {
      PutEntry(a, g.nodes[n].name, f(n), k);
      if ByLabel(g, i, f)[k] != (g.nodes[n].name, f(n)) {
        ByLabelEntry(g, i - 1, f, k);
        var j :| 0 <= j < i - 1 && !IsIntersection(g, g.ids[j]) && a[k] == (g.nodes[g.ids[j]].name, f(g.ids[j]));
      }
    }
  }

  /** With distinct labels, each node's label holds `f` of that node. */
  lemma {:induction false} ByLabelAt<V>(g: Graph, i: nat, f: NodeId -> V, n: NodeId)
    requires Valid(g) && UniqueLabels(g) && i <= |g.ids|
    requires n in g.ids[..i] && !IsIntersection(g, n)
    ensures Get(ByLabel(g, i, f), g.nodes[n].name) == Some(f(n))
  {
    var m := g.ids[i - 1];
    if m != n {
      assert n in g.ids[..i - 1] by {
        var j :| 0 <= j < i && g.ids[..i][j] == n;
        assert g.ids[..i - 1][j] == n;
      }
      ByLabelAt(g, i - 1, f, n);
    }
  }

  // ---------------------------------------------------------------------
  // The adjacency list
  // ---------------------------------------------------------------------

  /** The dictionary `build_adjacency_list` returns. */
  function AdjacencyOf(g: Graph, nbrs: NeighborOrder, rnd: real -> real): Adjacency
    requires Valid(g)
  {
    ByLabel(g, |g.ids|, Rows(g, nbrs, rnd))
  }

  /**
   * `build_adjacency_list(G)` and its twin `_build_adj(G)`, which differ only
   * in the rounding `rnd` of the distances.
   */
  method BuildAdjacency(g: Graph, nbrs: NeighborOrder, rnd: real -> real) returns (adj: Adjacency)
    requires Valid(g) && ListsNeighbors(g, nbrs)
    ensures adj == AdjacencyOf(g, nbrs, rnd)
  {
    adj := [];
    for i := 0 to |g.ids|
      invariant adj == ByLabel(g, i, Rows(g, nbrs, rnd))
    {
      adj := AdjStep(adj, g, nbrs, rnd, i);
    }
  }

  /** One outer iteration: intersections are skipped, any other node stores `sorted(nbs, key=distance)` under its label. */
  method AdjStep(a0: Adjacency, g: Graph, nbrs: NeighborOrder, rnd: real -> real, i: nat) returns (adj: Adjacency)
    requires Valid(g) && ListsNeighbors(g, nbrs) && i < |g.ids|
    requires a0 == ByLabel(g, i, Rows(g, nbrs, rnd))
    ensures adj == ByLabel(g, i + 1, Rows(g, nbrs, rnd))
  {
    var n := g.ids[i];
    ByLabelStep(g, i, Rows(g, nbrs, rnd));
    adj := a0;
    if !IsIntersection(g, n) {
      adj := PutRow(a0, g, nbrs, n, rnd);
    }
  }

  lemma ByLabelStep<V>(g: Graph, i: nat, f: NodeId -> V)
    requires Valid(g) && i < |g.ids|
    ensures IsIntersection(g, g.ids[i]) ==> ByLabel(g, i + 1, f) == ByLabel(g, i, f)
    ensures !IsIntersection(g, g.ids[i]) ==> ByLabel(g, i + 1, f) == Put(ByLabel(g, i, f), g.nodes[g.ids[i]].name, f(g.ids[i]))
  {
  }

  /** One outer iteration: `adj[label(n)] = sorted(nbs, key=distance)`. */
  method PutRow(a0: Adjacency, g: Graph, nbrs: NeighborOrder, n: NodeId, rnd: real -> real) returns (adj: Adjacency)
    requires Valid(g) && ListsNeighbors(g, nbrs) && n in g.nodes
    ensures adj == Put(a0, g.nodes[n].name, Rows(g, nbrs, rnd)(n))
  {
    var nbs := NeighborEntries(g, nbrs, n, rnd);
    adj := Put(a0, g.nodes[n].name, SortBy(nbs, Distance));
  }

  /** The keys are exactly the labels of the nodes that are not intersections. */
  lemma AdjKeys(g: Graph, nbrs: NeighborOrder, rnd: real -> real, l: string)
    requires Valid(g)
    ensures HasKey(AdjacencyOf(g, nbrs, rnd), l) <==> exists n :: n in g.nodes && !IsIntersection(g, n) && g.nodes[n].name == l
  {
    ByLabelKeys(g, |g.ids|, Rows(g, nbrs, rnd), l);
    LabelledAll(g, l);
  }

  /** Every list is in ascending order of distance. */
  lemma AdjSorted(g: Graph, nbrs: NeighborOrder, rnd: real -> real, k: nat)
    requires Valid(g) && k < |AdjacencyOf(g, nbrs, rnd)|
    ensures SortedBy(AdjacencyOf(g, nbrs, rnd)[k].1, Distance)
  {
    ByLabelEntry(g, |g.ids|, Rows(g, nbrs, rnd), k);
  }

  /** The labels listed in a row are those of the kept nodes among `xs`. */
  lemma {:induction false} RowLabels(g: Graph, n: NodeId, xs: seq<NodeId>, rnd: real -> real, l: string)
    ensures (exists e :: e in Row(g, n, xs, rnd) && e.neighbor == l) <==>
              (exists x :: x in xs && Kept(g, n, x) && g.nodes[x].name == l)
  {
    if xs != [] {
      var p := xs[..|xs| - 1];
      var x := xs[|xs| - 1];
      assert xs == p + [x];
      RowLabels(g, n, p, rnd, l);
      if Kept(g, n, x) {
        assert EntryFor(g, n, x, rnd) in Row(g, n, xs, rnd);
      }
    }
  }

  /** `l` is among the neighbour labels of the list stored under `k`. */
  ghost predicate ListsLabel(adj: Adjacency, k: string, l: string)
  {
    Get(adj, k).Some? && exists e :: e in Get(adj, k).value && e.neighbor == l
  }

  /** A node's stored list names `l` exactly when one of its non-intersection neighbours is labelled `l`. */
  lemma SortedRowLabels(g: Graph, nbrs: NeighborOrder, n: NodeId, rnd: real -> real, l: string)
    requires Valid(g) && ListsNeighbors(g, nbrs) && n in g.nodes
    ensures (exists e :: e in Rows(g, nbrs, rnd)(n) && e.neighbor == l) <==>
              (exists x :: Kept(g, n, x) && g.nodes[x].name == l)
  {
    var r := Row(g, n, nbrs(n), rnd);
    var s := Rows(g, nbrs, rnd)(n);
    assert multiset(s) == multiset(r);
    forall e
      ensures e in s <==> e in r
    {
      assert e in s <==> e in multiset(s);
      assert e in r <==> e in multiset(r);
    }
    RowLabels(g, n, nbrs(n), rnd, l);
  }

  /**
   * With distinct labels the adjacency list is symmetric: `b` is listed
   * under `a` exactly when `a` is listed under `b`; and it is listed
   * exactly when the two share an edge.
   */
  lemma AdjSymmetric(g: Graph, nbrs: NeighborOrder, rnd: real -> real, a: NodeId, b: NodeId)
    requires Valid(g) && ListsNeighbors(g, nbrs) && UniqueLabels(g)
    requires a in g.nodes && b in g.nodes && !IsIntersection(g, a) && !IsIntersection(g, b)
    ensures var adj := AdjacencyOf(g, nbrs, rnd);
      && (ListsLabel(adj, g.nodes[a].name, g.nodes[b].name) <==> HasEdge(g, a, b))
      && (ListsLabel(adj, g.nodes[a].name, g.nodes[b].name) <==> ListsLabel(adj, g.nodes[b].name, g.nodes[a].name))
  {
    assert g.ids[..|g.ids|] == g.ids;
    ByLabelAt(g, |g.ids|, Rows(g, nbrs, rnd), a);
    ByLabelAt(g, |g.ids|, Rows(g, nbrs, rnd), b);
    SortedRowLabels(g, nbrs, a, rnd, g.nodes[b].name);
    SortedRowLabels(g, nbrs, b, rnd, g.nodes[a].name);
    KeySymmetric(a, b);
  }

  // ---------------------------------------------------------------------
  // Compact and typed forms
  // ---------------------------------------------------------------------

  function Labels(es: seq<Entry>): (ls: seq<string>)
    ensures |ls| == |es| && forall i :: 0 <= i < |es| ==> ls[i] == es[i].neighbor
  {
    if es == [] then [] else [es[0].neighbor] + Labels(es[1..])
  }

  /** `build_compact_adjacency`: the same keys, each holding the neighbour labels. */
  function Compact(adj: Adjacency): (c: Assoc<string, seq<string>>)
  {
    if adj == [] then [] else [(adj[0].0, Labels(adj[0].1))] + Compact(adj[1..])
  }

  /** The compact form keeps every key in its place and every neighbour in its order. */
  lemma {:induction false} CompactShape(adj: Adjacency)
    ensures Keys(Compact(adj)) == Keys(adj)
    ensures forall i :: 0 <= i < |adj| ==> Compact(adj)[i].1 == Labels(adj[i].1)
  {
    if adj != [] {
      CompactShape(adj[1..]);
      var c := Compact(adj);
      assert c[1..] == Compact(adj[1..]);
      assert forall i :: 0 < i < |adj| ==> adj[1..][i - 1] == adj[i];
    }
  }

  /** Looking a label up in the compact form is looking it up in the detailed one and keeping the labels. */
  lemma {:induction false} CompactGet(adj: Adjacency, k: string)
    ensures Get(Compact(adj), k) == if HasKey(adj, k) then Some(Labels(Get(adj, k).value)) else None
  {
    if adj != [] {
      HasKeyCons(adj, k);
      CompactGet(adj[1..], k);
      assert Compact(adj)[1..] == Compact(adj[1..]);
    }
  }

  /** Edge type to label to neighbour labels. */
  type Typed = Assoc<string, Assoc<string, seq<string>>>

  /** `typed[t][l]`, or the empty list when either key is missing. */
  function Lookup(t: Typed, et: string, l: string): seq<string>
  {
    match Get(t, et)
    case None => []
    case Some(inner) => Get(inner, l).GetOr([])
  }

  /** The body of the inner loop: create the missing keys, then append `x` to `typed[et][l]`. */
  function AddTyped(t: Typed, et: string, l: string, x: string): Typed
  {
    var inner := Get(t, et).GetOr([]);
    Put(t, et, Put(inner, l, Get(inner, l).GetOr([]) + [x]))
  }

  /** Appending touches only the one list. */
  lemma AddTypedLookup(t: Typed, et: string, l: string, x: string, et': string, l': string)
    ensures Lookup(AddTyped(t, et, l, x), et', l') == if et' == et && l' == l then Lookup(t, et, l) + [x] else Lookup(t, et', l')
  {
  }

  /** The typed dictionary after the inner loop has run over the list `es` of label `l`. */
  function AddRow(t: Typed, l: string, es: seq<Entry>): Typed
  {
    if es == [] then t
    else
      var e := es[|es| - 1];
      AddTyped(AddRow(t, l, es[..|es| - 1]), e.edgeType, l, e.neighbor)
  }

  /** The typed dictionary after the outer loop has run over the pairs of `adj`. */
  function TypedOf(adj: Adjacency): Typed
  {
    if adj == [] then []
    else AddRow(TypedOf(adj[..|adj| - 1]), adj[|adj| - 1].0, adj[|adj| - 1].1)
  }

  /** `build_typed_adjacency(adj)`. */
  method BuildTyped(adj: Adjacency) returns (typed: Typed)
    ensures typed == TypedOf(adj)
  {
    typed := [];
    for i := 0 to |adj|
      invariant typed == TypedOf(adj[..i])
    {
      assert adj[..i + 1][..i] == adj[..i];
      typed := TypedRow(typed, adj[i].0, adj[i].1);
    }
    assert adj[..|adj|] == adj;
  }

  /** The inner loop of `build_typed_adjacency`, over the list `es` of label `l`. */
  method TypedRow(t0: Typed, l: string, es: seq<Entry>) returns (typed: Typed)
    ensures typed == AddRow(t0, l, es)
  {
    typed := t0;
    for j := 0 to |es|
      invariant typed == AddRow(t0, l, es[..j])
    {
      assert es[..j + 1][..j] == es[..j];
      typed := AddTyped(typed, es[j].edgeType, l, es[j].neighbor);
    }
    assert es[..|es|] == es;
  }

  /** The neighbour labels of the entries of `es` whose edge type is `et`, in order. */
  function OfType(es: seq<Entry>, et: string): (r: seq<string>)
    ensures |r| <= |es|
  {
    if es == [] then []
    else
      var e := es[|es| - 1];
      var r := OfType(es[..|es| - 1], et);
      if e.edgeType == et then r + [e.neighbor] else r
  }

  /** The neighbour labels with edge type `et` of every list stored under `l`, in visiting order. */
  function Select(adj: Adjacency, et: string, l: string): seq<string>
  {
    if adj == [] then []
    else
      var r := Select(adj[..|adj| - 1], et, l);
      if adj[|adj| - 1].0 == l then r + OfType(adj[|adj| - 1].1, et) else r
  }

  /** The inner loop appends, under `l`, the labels of each edge type in order, and nothing elsewhere. */
  lemma {:induction false} AddRowLookup(t: Typed, l: string, es: seq<Entry>, et: string, l': string)
    ensures Lookup(AddRow(t, l, es), et, l') == Lookup(t, et, l') + (if l' == l then OfType(es, et) else [])
  {
    if es != [] {
      var e := es[|es| - 1];
      var p := es[..|es| - 1];
      AddRowLookup(t, l, p, et, l');
      AddTypedLookup(AddRow(t, l, p), e.edgeType, l, e.neighbor, et, l');
    }
  }

  /** Each entry lands once, under its own edge type and label, in visiting order. */
  lemma {:induction false} TypedLookup(adj: Adjacency, et: string, l: string)
    ensures Lookup(TypedOf(adj), et, l) == Select(adj, et, l)
  {
    if adj != [] {
      var p := adj[..|adj| - 1];
      TypedLookup(p, et, l);
      AddRowLookup(TypedOf(p), adj[|adj| - 1].0, adj[|adj| - 1].1, et, l);
    }
  }

  function Length(xs: seq<string>): nat
  {
    |xs|
  }

  function InnerCount(inner: Assoc<string, seq<string>>): nat
  {
    SumOf(inner, Length)
  }

  /** The number of neighbour labels the typed dictionary holds. */
  function TypedCount(t: Typed): nat
  {
    SumOf(t, InnerCount)
  }

  lemma AddTypedCount(t: Typed, et: string, l: string, x: string)
    ensures TypedCount(AddTyped(t, et, l, x)) == TypedCount(t) + 1
  {
    var inner := Get(t, et).GetOr([]);
    var prev := Get(inner, l).GetOr([]);
    var inner' := Put(inner, l, prev + [x]);
    PutSum(inner, l, prev + [x], Length);
    PutSum(t, et, inner', InnerCount);
    assert InnerCount(inner') == InnerCount(inner) + 1;
  }

  /** The inner loop adds one label per entry. */
  lemma {:induction false} AddRowCount(t: Typed, l: string, es: seq<Entry>)
    ensures TypedCount(AddRow(t, l, es)) == TypedCount(t) + |es|
  {
    if es != [] {
      var e := es[|es| - 1];
      AddRowCount(t, l, es[..|es| - 1]);
      AddTypedCount(AddRow(t, l, es[..|es| - 1]), e.edgeType, l, e.neighbor);
    }
  }

  function RowLength(es: seq<Entry>): nat
  {
    |es|
  }

  lemma {:induction false} SumSnoc<K, V>(d: Assoc<K, V>, x: (K, V), f: V -> nat)
    ensures SumOf(d + [x], f) == SumOf(d, f) + f(x.1)
  {
    if d != [] {
      assert (d + [x])[1..] == d[1..] + [x];
      SumSnoc(d[1..], x, f);
    }
  }

  /** No entry is lost or duplicated: the typed form holds as many labels as the adjacency list holds entries. */
  lemma {:induction false} TypedPreservesCount(adj: Adjacency)
    ensures TypedCount(TypedOf(adj)) == SumOf(adj, RowLength)
  {
    if adj != [] {
      var p := adj[..|adj| - 1];
      var x := adj[|adj| - 1];
      TypedPreservesCount(p);
      AddRowCount(TypedOf(p), x.0, x.1);
      SumSnoc(p, x, RowLength);
      assert p + [x] == adj;
    }
  }

  // ---------------------------------------------------------------------
  // Label to type
  // ---------------------------------------------------------------------

  function TypeOf(g: Graph): NodeId -> string
  {
    (n: NodeId) => if n in g.nodes then g.nodes[n].infraType else ""
  }

  /** `build_node_type_map(G)`: label to `infra_type` for every node that is not an intersection. */
  function NodeTypeMap(g: Graph): Assoc<string, string>
    requires Valid(g)
  {
    ByLabel(g, |g.ids|, TypeOf(g))
  }

  /**
   * The keys of the type map are the labels of the non-intersection nodes,
   * and each holds the type of a node so labelled, never "intersection".
   */
  lemma NodeTypeMapFacts(g: Graph, l: string)
    requires Valid(g)
    ensures HasKey(NodeTypeMap(g), l) <==> exists n :: n in g.nodes && !IsIntersection(g, n) && g.nodes[n].name == l
    ensures HasKey(NodeTypeMap(g), l) ==>
              exists n :: n in g.nodes && g.nodes[n].name == l && Get(NodeTypeMap(g), l) == Some(g.nodes[n].infraType)
    ensures Get(NodeTypeMap(g), l) != Some(IntersectionType)
  {
    ByLabelKeys(g, |g.ids|, TypeOf(g), l);
    LabelledAll(g, l);
    if HasKey(NodeTypeMap(g), l) {
      ByLabelValue(g, |g.ids|, TypeOf(g), l);
    }
  }
}
