/**
 * Typed utility wiring of the city graph (`_add_utility_edges`): power
 * plants feed substations and hospitals, substations feed nearby consumers
 * by a seeded random draw, water treatment feeds water supplies and
 * hospitals, and nearby emergency services are linked to each other.
 */
module Utility {
  import opened Graphs

  /**
   * The lists of `infra_nodes` that the wiring reads: the node ids of each
   * type, in insertion order (`infra_nodes.get(t, [])`).
   */
  datatype InfraNodes = InfraNodes(
    hospitals: seq<NodeId>, fireStations: seq<NodeId>, policeStations: seq<NodeId>, ambulanceDepots: seq<NodeId>,
    powerPlants: seq<NodeId>, substations: seq<NodeId>, waterTreatment: seq<NodeId>, waterSupply: seq<NodeId>)

  /** The emergency services in the order `_add_utility_edges` concatenates them. */
  function EmergencyNodes(infra: InfraNodes): seq<NodeId>
  {
    infra.hospitals + infra.fireStations + infra.policeStations + infra.ambulanceDepots
  }

  ghost predicate Symmetric(dist: Dist)
  {
    forall a, b :: dist(a, b) == dist(b, a)
  }

  ghost predicate AllIn(g: Graph, xs: seq<NodeId>)
  {
    forall x :: x in xs ==> x in g.nodes
  }

  /** Every listed id is a node (the positions exist only for nodes). */
  ghost predicate ListsInGraph(g: Graph, infra: InfraNodes)
  {
    && AllIn(g, EmergencyNodes(infra)) && AllIn(g, infra.powerPlants) && AllIn(g, infra.substations)
    && AllIn(g, infra.waterTreatment) && AllIn(g, infra.waterSupply)
  }

  ghost predicate OfType(g: Graph, xs: seq<NodeId>, t: string)
  {
    forall x :: x in xs ==> x in g.nodes && g.nodes[x].infraType == t
  }

  /** Each list holds nodes of its own type, as the graph builder fills it. */
  ghost predicate Typed(g: Graph, infra: InfraNodes)
  {
    && OfType(g, infra.hospitals, "Hospital") && OfType(g, infra.fireStations, "Fire Station")
    && OfType(g, infra.policeStations, "Police Station") && OfType(g, infra.ambulanceDepots, "Ambulance Depot")
    && OfType(g, infra.powerPlants, "Power Plant") && OfType(g, infra.substations, "Substation")
    && OfType(g, infra.waterTreatment, "Water Treatment") && OfType(g, infra.waterSupply, "Water Supply")
  }

  /** Substations feed every node that is not an intersection, a substation or a power plant. */
  predicate SubstationTarget(g: Graph, n: NodeId)
    requires n in g.nodes
  {
    g.nodes[n].infraType !in {IntersectionType, "Substation", "Power Plant"}
  }

  /**
   * Substation `a`, listed at some position `l`, drew below 0.3 for node `b`
   * with the draw phase 2 gives it; such a `b` is a consumer within 0.4 of
   * the radius.
   */
  ghost predicate Fed(g: Graph, subs: seq<NodeId>, dist: Dist, radius: real, draws: nat -> real, a: NodeId, b: NodeId)
  {
    && Valid(g)
    && exists l, j :: 0 <= l < |subs| && 0 <= j < |g.ids| && subs[l] == a && g.ids[j] == b &&
         Selected(g, subs[l], dist, radius, draws, SubOffset(g, subs, l, dist, radius), j)
  }

  /** A fed node is a consumer within 0.4 of the radius of a listed substation. */
  lemma FedInRange(g: Graph, subs: seq<NodeId>, dist: Dist, radius: real, draws: nat -> real, a: NodeId, b: NodeId)
    requires Fed(g, subs, dist, radius, draws, a, b)
    ensures a in subs && b in g.nodes && SubstationTarget(g, b) && dist(b, a) < radius * 0.4
  {
    var l, j :| 0 <= l < |subs| && 0 <= j < |g.ids| && subs[l] == a && g.ids[j] == b &&
      Selected(g, subs[l], dist, radius, draws, SubOffset(g, subs, l, dist, radius), j);
  }

  /** The edge `a`-`b` with value `e` is one that some wiring rule creates. */
  ghost predicate UtilityPair(g: Graph, infra: InfraNodes, dist: Dist, radius: real, draws: nat -> real, a: NodeId, b: NodeId, e: Edge)
  {
    || (e == Weighted("power", dist, a, b) && a in infra.powerPlants &&
        (b in infra.substations || b in infra.hospitals))
    || (e == Weighted("power", dist, a, b) && Fed(g, infra.substations, dist, radius, draws, a, b))
    || (e == Weighted("water", dist, a, b) && a in infra.waterTreatment &&
        (b in infra.waterSupply || b in infra.hospitals))
    || (e == Weighted("emergency", dist, a, b) && a in EmergencyNodes(infra) && b in EmergencyNodes(infra) &&
        dist(a, b) < radius * 0.5)
  }

  ghost predicate UtilityEdge(g: Graph, infra: InfraNodes, dist: Dist, radius: real, draws: nat -> real, k: EdgeKey, e: Edge)
  {
    UtilityPair(g, infra, dist, radius, draws, k.lo, k.hi, e) || UtilityPair(g, infra, dist, radius, draws, k.hi, k.lo, e)
  }

  /** `m` is `g` with edges only added or overwritten, each by a wiring rule. */
  ghost predicate OnlyWired(g: Graph, m: Graph, infra: InfraNodes, dist: Dist, radius: real, draws: nat -> real)
  {
    && Valid(m) && m.ids == g.ids && m.nodes == g.nodes
    && g.edges.Keys <= m.edges.Keys
    && (forall k :: k in m.edges ==>
          (k in g.edges && m.edges[k] == g.edges[k]) || UtilityEdge(g, infra, dist, radius, draws, k, m.edges[k]))
  }

  /** The edge a rule of type `t` writes between `a` and `b`: weighted by their distance. */
  function Weighted(t: string, dist: Dist, a: NodeId, b: NodeId): Edge
  {
    Edge(t, dist(a, b))
  }

  /** `a` and `b` are joined by the rule edge of type `t`. */
  ghost predicate WiredAs(m: Graph, a: NodeId, b: NodeId, t: string, dist: Dist)
  {
    Key(a, b) in m.edges && m.edges[Key(a, b)] == Weighted(t, dist, a, b)
  }

  /** Every power plant is wired to every substation and every hospital. */
  ghost predicate PowerDone(m: Graph, infra: InfraNodes, dist: Dist)
  {
    && (forall a, b :: a in infra.powerPlants && b in infra.substations ==> WiredAs(m, a, b, "power", dist))
    && (forall a, b :: a in infra.powerPlants && b in infra.hospitals ==> WiredAs(m, a, b, "power", dist))
  }

  /** Every water treatment plant is wired to every water supply and every hospital. */
  ghost predicate WaterDone(m: Graph, infra: InfraNodes, dist: Dist)
  {
    && (forall a, b :: a in infra.waterTreatment && b in infra.waterSupply ==> WiredAs(m, a, b, "water", dist))
    && (forall a, b :: a in infra.waterTreatment && b in infra.hospitals ==> WiredAs(m, a, b, "water", dist))
  }

  /** A typed rule edge with the symmetric distance as weight is the same value on either orientation. */
  lemma SameKeySameWeight(dist: Dist, t: string, a: NodeId, b: NodeId, x: NodeId, y: NodeId)
    requires Symmetric(dist) && Key(a, b) == Key(x, y)
    ensures Weighted(t, dist, a, b) == Weighted(t, dist, x, y)
  {
    KeyEq(a, b, x, y);
    assert dist(a, b) == dist(b, a);
  }

  /** The edge `k` with value `e` joins `a` to some member of `bs` that is near enough. */
  ghost predicate StarEdge(a: NodeId, bs: seq<NodeId>, t: string, dist: Dist, bounded: bool, bound: real, k: EdgeKey, e: Edge)
  {
    exists b :: b in bs && Near(dist, bounded, bound, a, b) && k == Key(a, b) && e == Weighted(t, dist, a, b)
  }

  /** A star either wires every member or only those closer than `bound`. */
  predicate Near(dist: Dist, bounded: bool, bound: real, a: NodeId, b: NodeId)
  {
    !bounded || dist(a, b) < bound
  }

  /** The keys a star from `a` to `bs` may touch. */
  function StarKeys(a: NodeId, bs: seq<NodeId>): set<EdgeKey>
  {
    set b | b in bs :: Key(a, b)
  }

  /** Outside `keys`, `m` has exactly the edges of `m0`. */
  ghost predicate SameOutside(m0: Graph, m: Graph, keys: set<EdgeKey>)
  {
    forall k :: k !in keys ==> (k in m0.edges <==> k in m.edges) && (k in m.edges ==> m.edges[k] == m0.edges[k])
  }

  /** What holds after the star has visited `bs[..j]`. */
  ghost predicate StarInv(m0: Graph, m: Graph, a: NodeId, bs: seq<NodeId>, j: nat, t: string, dist: Dist, bounded: bool, bound: real)
    requires j <= |bs|
  {
    && Valid(m) && m.ids == m0.ids && m.nodes == m0.nodes && m0.edges.Keys <= m.edges.Keys
    && (forall b :: b in bs[..j] && Near(dist, bounded, bound, a, b) ==> WiredAs(m, a, b, t, dist))
    && (forall x, y :: WiredAs(m0, x, y, t, dist) ==> WiredAs(m, x, y, t, dist))
    && SameOutside(m0, m, StarKeys(a, bs))
    && (forall k :: k in m.edges ==> (k in m0.edges && m.edges[k] == m0.edges[k]) || StarEdge(a, bs, t, dist, bounded, bound, k, m.edges[k]))
  }

  /** Adding an edge of type `t` keeps every pair of type `t` (weights agree by symmetry). */
  lemma AddKeepsType(m0: Graph, m: Graph, a: NodeId, b: NodeId, t: string, dist: Dist)
    requires Valid(m) && Symmetric(dist) && a in m.nodes && b in m.nodes
    requires forall x, y :: WiredAs(m0, x, y, t, dist) ==> WiredAs(m, x, y, t, dist)
    ensures forall x, y :: WiredAs(m0, x, y, t, dist) ==> WiredAs(AddEdge(m, a, b, Weighted(t, dist, a, b)), x, y, t, dist)
  {
    var m' := AddEdge(m, a, b, Weighted(t, dist, a, b));
    forall x, y | WiredAs(m0, x, y, t, dist)
      ensures WiredAs(m', x, y, t, dist)
    {
      if Key(a, b) == Key(x, y) {
        SameKeySameWeight(dist, t, a, b, x, y);
      }
    }
  }

  /** Adding `a`-`b` wires `a` to every visited member that is near enough. */
  lemma StarAddWired(m0: Graph, m: Graph, a: NodeId, bs: seq<NodeId>, j: nat, t: string, dist: Dist, bounded: bool, bound: real)
    requires j < |bs| && StarInv(m0, m, a, bs, j, t, dist, bounded, bound)
    requires a in m.nodes && bs[j] in m.nodes && Near(dist, bounded, bound, a, bs[j])
    ensures var m' := AddEdge(m, a, bs[j], Weighted(t, dist, a, bs[j]));
      forall c :: c in bs[..j + 1] && Near(dist, bounded, bound, a, c) ==> WiredAs(m', a, c, t, dist)
  {
    var b := bs[j];
    var m' := AddEdge(m, a, b, Weighted(t, dist, a, b));
    assert bs[..j + 1] == bs[..j] + [b];
    forall c | c in bs[..j + 1] && Near(dist, bounded, bound, a, c)
      ensures WiredAs(m', a, c, t, dist)
    {
      if c != b {
        assert c in bs[..j];
        KeyEq(a, b, a, c);
      }
    }
  }

  /** Adding `a`-`b` changes only a star key, and only to a star edge. */
  lemma StarAddFrame(m0: Graph, m: Graph, a: NodeId, bs: seq<NodeId>, j: nat, t: string, dist: Dist, bounded: bool, bound: real)
    requires j < |bs| && StarInv(m0, m, a, bs, j, t, dist, bounded, bound)
    requires a in m.nodes && bs[j] in m.nodes && Near(dist, bounded, bound, a, bs[j])
    ensures var m' := AddEdge(m, a, bs[j], Weighted(t, dist, a, bs[j]));
      && SameOutside(m0, m', StarKeys(a, bs))
      && (forall k :: k in m'.edges ==> (k in m0.edges && m'.edges[k] == m0.edges[k]) || StarEdge(a, bs, t, dist, bounded, bound, k, m'.edges[k]))
  {
    var b := bs[j];
    var e := Weighted(t, dist, a, b);
    var m' := AddEdge(m, a, b, e);
    assert Key(a, b) in StarKeys(a, bs);
    assert StarEdge(a, bs, t, dist, bounded, bound, Key(a, b), e);
  }

  lemma StarStep(m0: Graph, m: Graph, a: NodeId, bs: seq<NodeId>, j: nat, t: string, dist: Dist, bounded: bool, bound: real)
    requires j < |bs| && StarInv(m0, m, a, bs, j, t, dist, bounded, bound) && Symmetric(dist)
    requires a in m.nodes && bs[j] in m.nodes
    ensures var b := bs[j];
      StarInv(m0, if Near(dist, bounded, bound, a, b) then AddEdge(m, a, b, Weighted(t, dist, a, b)) else m, a, bs, j + 1, t, dist, bounded, bound)
  {
    var b := bs[j];
    if Near(dist, bounded, bound, a, b) {
      StarAddWired(m0, m, a, bs, j, t, dist, bounded, bound);
      AddKeepsType(m0, m, a, b, t, dist);
      StarAddFrame(m0, m, a, bs, j, t, dist, bounded, bound);
    } else {
      assert bs[..j + 1] == bs[..j] + [b];
    }
  }

  /**
   * `for b in bs: if not bounded or d(a, b) < bound: G.add_edge(a, b, edge_type=t, weight=d(a, b))`:
   * the inner loop shared by the deterministic wiring rules.
   */
  method Star(m0: Graph, a: NodeId, bs: seq<NodeId>, t: string, dist: Dist, bounded: bool, bound: real) returns (m: Graph)
    requires Valid(m0) && a in m0.nodes && (forall b :: b in bs ==> b in m0.nodes) && Symmetric(dist)
    ensures StarInv(m0, m, a, bs, |bs|, t, dist, bounded, bound)
  {
    m := m0;
    for j := 0 to |bs|
      invariant StarInv(m0, m, a, bs, j, t, dist, bounded, bound)
    {
      StarStep(m0, m, a, bs, j, t, dist, bounded, bound);
      if Near(dist, bounded, bound, a, bs[j]) {
        m := AddEdge(m, a, bs[j], Weighted(t, dist, a, bs[j]));
      }
    }
  }

  /** Adding a rule edge keeps `OnlyWired`. */
  lemma AddKeepsOnlyWired(g: Graph, m: Graph, infra: InfraNodes, dist: Dist, radius: real, draws: nat -> real,
                          a: NodeId, b: NodeId, e: Edge)
    requires OnlyWired(g, m, infra, dist, radius, draws) && a in m.nodes && b in m.nodes
    requires UtilityPair(g, infra, dist, radius, draws, a, b, e)
    ensures OnlyWired(g, AddEdge(m, a, b, e), infra, dist, radius, draws)
  {
    assert UtilityEdge(g, infra, dist, radius, draws, Key(a, b), e);
  }

  /** A star from `a` touches only keys containing `a` and a member of `bs`. */
  lemma StarKeysAvoid(a: NodeId, bs: seq<NodeId>, x: NodeId, y: NodeId)
    requires (x != a && x !in bs) || (y != a && y !in bs)
    ensures Key(x, y) !in StarKeys(a, bs)
  {
    forall b | b in bs
      ensures Key(a, b) != Key(x, y)
    {
      KeyEq(a, b, x, y);
    }
  }

  /** A star whose every edge is a wiring rule keeps `OnlyWired`. */
  lemma StarOnlyWired(g: Graph, m0: Graph, m: Graph, infra: InfraNodes, dist: Dist, radius: real, draws: nat -> real,
                      a: NodeId, bs: seq<NodeId>, t: string, bounded: bool, bound: real)
    requires OnlyWired(g, m0, infra, dist, radius, draws) && StarInv(m0, m, a, bs, |bs|, t, dist, bounded, bound)
    requires forall b :: b in bs && Near(dist, bounded, bound, a, b) ==> UtilityPair(g, infra, dist, radius, draws, a, b, Weighted(t, dist, a, b))
    ensures OnlyWired(g, m, infra, dist, radius, draws)
  {
    forall k | k in m.edges
      ensures (k in g.edges && m.edges[k] == g.edges[k]) || UtilityEdge(g, infra, dist, radius, draws, k, m.edges[k])
    {
      if !(k in m0.edges && m.edges[k] == m0.edges[k]) {
        var b :| b in bs && Near(dist, bounded, bound, a, b) && k == Key(a, b) && m.edges[k] == Weighted(t, dist, a, b);
        assert UtilityPair(g, infra, dist, radius, draws, a, b, m.edges[k]);
      }
    }
  }

  /** Every pair of type `t` wired in `m0` is still wired in `m`. */
  ghost predicate KeepsType(m0: Graph, m: Graph, t: string, dist: Dist)
  {
    forall x, y :: WiredAs(m0, x, y, t, dist) ==> WiredAs(m, x, y, t, dist)
  }

  /** Keeping the power edges keeps every power plant wired. */
  lemma KeepsTypePower(infra: InfraNodes, m0: Graph, m: Graph, dist: Dist)
    requires KeepsType(m0, m, "power", dist) && PowerDone(m0, infra, dist)
    ensures PowerDone(m, infra, dist)
  {
  }

  lemma KeepsTypeTrans(m0: Graph, m1: Graph, m2: Graph, t: string, dist: Dist)
    requires KeepsType(m0, m1, t, dist) && KeepsType(m1, m2, t, dist)
    ensures KeepsType(m0, m2, t, dist)
  {
  }

  // ---------------------------------------------------------------
  // Phase 1: power plants
  // ---------------------------------------------------------------

  /** The plants before position `i` are wired, by edges of type `t`, to every member of `xs` and of `ys`. */
  ghost predicate PlantUpTo(m: Graph, ps: seq<NodeId>, xs: seq<NodeId>, ys: seq<NodeId>, i: nat, t: string, dist: Dist)
    requires i <= |ps|
  {
    && (forall a, b :: a in ps[..i] && b in xs ==> WiredAs(m, a, b, t, dist))
    && (forall a, b :: a in ps[..i] && b in ys ==> WiredAs(m, a, b, t, dist))
  }

  /** Two full stars from the next plant extend `PlantUpTo` by one plant. */
  lemma PlantStep(m: Graph, m1: Graph, m2: Graph, ps: seq<NodeId>, xs: seq<NodeId>, ys: seq<NodeId>, i: nat, t: string,
                  dist: Dist)
    requires i < |ps| && PlantUpTo(m, ps, xs, ys, i, t, dist)
    requires StarInv(m, m1, ps[i], xs, |xs|, t, dist, false, 0.0)
    requires StarInv(m1, m2, ps[i], ys, |ys|, t, dist, false, 0.0)
    ensures PlantUpTo(m2, ps, xs, ys, i + 1, t, dist)
  {
    assert ps[..i + 1] == ps[..i] + [ps[i]];
    assert xs[..|xs|] == xs;
    assert ys[..|ys|] == ys;
  }

  method WirePowerPlants(g: Graph, infra: InfraNodes, dist: Dist, radius: real, ghost draws: nat -> real) returns (m: Graph)
    requires Valid(g) && ListsInGraph(g, infra) && Symmetric(dist)
    ensures OnlyWired(g, m, infra, dist, radius, draws) && PowerDone(m, infra, dist)
  {
    var pps := infra.powerPlants;
    var subs := infra.substations;
    var hs := infra.hospitals;
    m := g;
    for i := 0 to |pps|
      invariant OnlyWired(g, m, infra, dist, radius, draws)
      invariant PlantUpTo(m, pps, subs, hs, i, "power", dist)
    {
      var m1 := Star(m, pps[i], subs, "power", dist, false, 0.0);
      StarOnlyWired(g, m, m1, infra, dist, radius, draws, pps[i], subs, "power", false, 0.0);
      var m2 := Star(m1, pps[i], hs, "power", dist, false, 0.0);
      StarOnlyWired(g, m1, m2, infra, dist, radius, draws, pps[i], hs, "power", false, 0.0);
      PlantStep(m, m1, m2, pps, subs, hs, i, "power", dist);
      m := m2;
    }
    assert pps[..|pps|] == pps;
  }

  // ---------------------------------------------------------------
  // Phase 2: substations, by seeded random draw
  // ---------------------------------------------------------------

  /** A substation feeds a non-plant node closer than 0.4 of the radius. */
  predicate InFeedRange(g: Graph, sub: NodeId, dist: Dist, radius: real, n: NodeId)
    requires n in g.nodes
  {
    SubstationTarget(g, n) && dist(n, sub) < radius * 0.4
  }

  /** How many random draws a substation takes over the nodes `ns`: one per consumer within 0.4 of the radius. */
  function DrawsOver(g: Graph, sub: NodeId, ns: seq<NodeId>, dist: Dist, radius: real): (c: nat)
    requires forall n :: n in ns ==> n in g.nodes
    ensures c <= |ns|
  {
    if ns == [] then 0
    else
      var last := ns[|ns| - 1];
      DrawsOver(g, sub, ns[..|ns| - 1], dist, radius) +
        (if InFeedRange(g, sub, dist, radius, last) then 1 else 0)
  }

  /** Node `g.ids[i]` is within range of `sub` and its draw is below 0.3. */
  ghost predicate Selected(g: Graph, sub: NodeId, dist: Dist, radius: real, draws: nat -> real, k0: nat, i: nat)
    requires Valid(g) && i < |g.ids|
  {
    && InFeedRange(g, sub, dist, radius, g.ids[i])
    && draws(k0 + DrawsOver(g, sub, g.ids[..i], dist, radius)) < 0.3
  }

  ghost predicate FeedInv(g: Graph, infra: InfraNodes, m0: Graph, m: Graph, sub: NodeId, dist: Dist, radius: real,
                          draws: nat -> real, k0: nat, k: nat, j: nat)
    requires Valid(g) && j <= |g.ids|
  {
    && OnlyWired(g, m, infra, dist, radius, draws)
    && k == k0 + DrawsOver(g, sub, g.ids[..j], dist, radius)
    && (forall i :: 0 <= i < j && Selected(g, sub, dist, radius, draws, k0, i) ==>
          WiredAs(m, sub, g.ids[i], "power", dist))
    && KeepsType(m0, m, "power", dist)
  }

  /** The draw count over a prefix grows by one exactly at a consumer in range. */
  lemma DrawsOverStep(g: Graph, sub: NodeId, dist: Dist, radius: real, j: nat)
    requires Valid(g) && j < |g.ids|
    ensures DrawsOver(g, sub, g.ids[..j + 1], dist, radius) == DrawsOver(g, sub, g.ids[..j], dist, radius) +
      (if InFeedRange(g, sub, dist, radius, g.ids[j]) then 1 else 0)
  {
    assert g.ids[..j + 1][..j] == g.ids[..j];
  }

  /** A node out of range, or one whose draw fails, leaves the graph as it is. */
  lemma FeedSkip(g: Graph, infra: InfraNodes, m0: Graph, m: Graph, sub: NodeId, dist: Dist, radius: real,
                 draws: nat -> real, k0: nat, k: nat, j: nat)
    requires Valid(g) && j < |g.ids| && FeedInv(g, infra, m0, m, sub, dist, radius, draws, k0, k, j)
    requires !Selected(g, sub, dist, radius, draws, k0, j)
    ensures FeedInv(g, infra, m0, m, sub, dist, radius, draws, k0,
                    k + (if InFeedRange(g, sub, dist, radius, g.ids[j]) then 1 else 0), j + 1)
  {
    DrawsOverStep(g, sub, dist, radius, j);
  }

  /** Adding a power edge at `sub` keeps every earlier selected node wired. */
  lemma FeedAddWired(g: Graph, m: Graph, sub: NodeId, dist: Dist, radius: real, draws: nat -> real, k0: nat, j: nat,
                     e: Edge)
    requires Valid(g) && Valid(m) && m.nodes == g.nodes && j < |g.ids| && sub in g.nodes && Symmetric(dist)
    requires e == Edge("power", dist(g.ids[j], sub))
    requires forall i :: 0 <= i < j && Selected(g, sub, dist, radius, draws, k0, i) ==>
      WiredAs(m, sub, g.ids[i], "power", dist)
    ensures forall i :: 0 <= i < j && Selected(g, sub, dist, radius, draws, k0, i) ==>
      WiredAs(AddEdge(m, sub, g.ids[j], e), sub, g.ids[i], "power", dist)
  {
    forall i | 0 <= i < j && Selected(g, sub, dist, radius, draws, k0, i)
      ensures WiredAs(AddEdge(m, sub, g.ids[j], e), sub, g.ids[i], "power", dist)
    {
      if g.ids[i] == g.ids[j] {
        assert dist(g.ids[j], sub) == dist(sub, g.ids[j]);
      } else {
        KeyEq(sub, g.ids[j], sub, g.ids[i]);
      }
    }
  }

  /** A selected node gets its power edge. */
  lemma FeedAdd(g: Graph, infra: InfraNodes, m0: Graph, m: Graph, sub: NodeId, dist: Dist, radius: real,
                draws: nat -> real, l: nat, k0: nat, k: nat, j: nat)
    requires Valid(g) && Symmetric(dist) && j < |g.ids| && FeedInv(g, infra, m0, m, sub, dist, radius, draws, k0, k, j)
    requires l < |infra.substations| && sub == infra.substations[l] && k0 == SubOffset(g, infra.substations, l, dist, radius)
    requires sub in g.nodes && Selected(g, sub, dist, radius, draws, k0, j)
    ensures FeedInv(g, infra, m0, AddEdge(m, sub, g.ids[j], Edge("power", dist(g.ids[j], sub))), sub, dist, radius,
                    draws, k0, k + 1, j + 1)
  {
    var nid := g.ids[j];
    var e := Edge("power", dist(nid, sub));
    DrawsOverStep(g, sub, dist, radius, j);
    assert dist(sub, nid) == dist(nid, sub);
    assert Fed(g, infra.substations, dist, radius, draws, sub, nid);
    assert UtilityPair(g, infra, dist, radius, draws, sub, nid, e);
    AddKeepsOnlyWired(g, m, infra, dist, radius, draws, sub, nid, e);
    AddKeepsType(m0, m, sub, nid, "power", dist);
    FeedAddWired(g, m, sub, dist, radius, draws, k0, j, e);
  }

  /** The graph after the feed loop of `sub` has visited the first `j` nodes. */
  ghost function FeedEdges(g: Graph, m0: Graph, sub: NodeId, dist: Dist, radius: real, draws: nat -> real, k0: nat,
                           j: nat): (r: Graph)
    requires Valid(g) && Valid(m0) && m0.nodes == g.nodes && sub in g.nodes && j <= |g.ids|
    ensures Valid(r) && r.ids == m0.ids && r.nodes == m0.nodes
  {
    if j == 0 then m0
    else
      var m := FeedEdges(g, m0, sub, dist, radius, draws, k0, j - 1);
      var n := g.ids[j - 1];
      if Selected(g, sub, dist, radius, draws, k0, j - 1) then AddEdge(m, sub, n, Edge("power", dist(n, sub))) else m
  }

  /** The feed loop keeps `FeedInv` at every prefix. */
  lemma {:induction false} FeedInvariant(g: Graph, infra: InfraNodes, m0: Graph, sub: NodeId, dist: Dist, radius: real,
                                         draws: nat -> real, l: nat, k0: nat, j: nat)
    requires Valid(g) && Symmetric(dist) && sub in g.nodes
    requires l < |infra.substations| && sub == infra.substations[l] && k0 == SubOffset(g, infra.substations, l, dist, radius)
    requires OnlyWired(g, m0, infra, dist, radius, draws) && j <= |g.ids|
    ensures FeedInv(g, infra, m0, FeedEdges(g, m0, sub, dist, radius, draws, k0, j), sub, dist, radius, draws, k0,
                    k0 + DrawsOver(g, sub, g.ids[..j], dist, radius), j)
  {
    if j == 0 {
      assert g.ids[..0] == [];
    } else {
      FeedInvariant(g, infra, m0, sub, dist, radius, draws, l, k0, j - 1);
      var m := FeedEdges(g, m0, sub, dist, radius, draws, k0, j - 1);
      var k := k0 + DrawsOver(g, sub, g.ids[..j - 1], dist, radius);
      if Selected(g, sub, dist, radius, draws, k0, j - 1) {
        FeedAdd(g, infra, m0, m, sub, dist, radius, draws, l, k0, k, j - 1);
      } else {
        FeedSkip(g, infra, m0, m, sub, dist, radius, draws, k0, k, j - 1);
      }
    }
  }

  /**
   * Phase 2 for one substation: every consumer within 0.4 of the radius takes
   * the next random draw and is wired when that draw is below 0.3. The draws
   * are `draws(k0)`, `draws(k0 + 1)`, ...; `k` is the next unused index.
   */
  method FeedFromSubstation(g: Graph, m0: Graph, sub: NodeId, dist: Dist, radius: real,
                            draws: nat -> real, k0: nat) returns (m: Graph, k: nat)
    requires Valid(g) && Valid(m0) && m0.nodes == g.nodes && sub in g.nodes
    ensures m == FeedEdges(g, m0, sub, dist, radius, draws, k0, |g.ids|)
    ensures k == k0 + DrawsOver(g, sub, g.ids, dist, radius)
  {
    m := m0;
    k := k0;
    for j := 0 to |g.ids|
      invariant m == FeedEdges(g, m0, sub, dist, radius, draws, k0, j)
      invariant k == k0 + DrawsOver(g, sub, g.ids[..j], dist, radius)
    {
      var nid := g.ids[j];
      DrawsOverStep(g, sub, dist, radius, j);
      assert Selected(g, sub, dist, radius, draws, k0, j) <==> InFeedRange(g, sub, dist, radius, nid) && draws(k) < 0.3;
      if InFeedRange(g, sub, dist, radius, nid) {
        var d := dist(nid, sub);
        if draws(k) < 0.3 {
          m := AddEdge(m, sub, nid, Edge("power", d));
        }
        k := k + 1;
      }
    }
    assert g.ids[..|g.ids|] == g.ids;
  }

  /** The index of the first random draw taken by substation `subs[l]`: the draws of the earlier substations. */
  function SubOffset(g: Graph, subs: seq<NodeId>, l: nat, dist: Dist, radius: real): nat
    requires Valid(g) && l <= |subs|
  {
    if l == 0 then 0 else SubOffset(g, subs, l - 1, dist, radius) + DrawsOver(g, subs[l - 1], g.ids, dist, radius)
  }

  /** Every substation before position `i` is wired to each node it selected with its own draws. */
  ghost predicate FedUpTo(g: Graph, m: Graph, subs: seq<NodeId>, i: nat, dist: Dist, radius: real, draws: nat -> real)
    requires Valid(g) && i <= |subs|
  {
    forall l, j :: 0 <= l < i && 0 <= j < |g.ids| && Selected(g, subs[l], dist, radius, draws, SubOffset(g, subs, l, dist, radius), j) ==>
      WiredAs(m, subs[l], g.ids[j], "power", dist)
  }

  lemma FedStep(g: Graph, m: Graph, m1: Graph, subs: seq<NodeId>, i: nat, dist: Dist, radius: real, draws: nat -> real)
    requires Valid(g) && i < |subs| && FedUpTo(g, m, subs, i, dist, radius, draws) && KeepsType(m, m1, "power", dist)
    requires forall j :: 0 <= j < |g.ids| && Selected(g, subs[i], dist, radius, draws, SubOffset(g, subs, i, dist, radius), j) ==>
      WiredAs(m1, subs[i], g.ids[j], "power", dist)
    ensures FedUpTo(g, m1, subs, i + 1, dist, radius, draws)
  {
    forall l, j | 0 <= l < i + 1 && 0 <= j < |g.ids| && Selected(g, subs[l], dist, radius, draws, SubOffset(g, subs, l, dist, radius), j)
      ensures WiredAs(m1, subs[l], g.ids[j], "power", dist)
    {
      if l < i {
        assert WiredAs(m, subs[l], g.ids[j], "power", dist);
      }
    }
  }

  /** What holds after the substations before position `i` have been fed. */
  ghost predicate SubInv(g: Graph, infra: InfraNodes, m0: Graph, m: Graph, i: nat, dist: Dist, radius: real,
                         draws: nat -> real)
    requires Valid(g) && i <= |infra.substations|
  {
    && OnlyWired(g, m, infra, dist, radius, draws) && KeepsType(m0, m, "power", dist)
    && FedUpTo(g, m, infra.substations, i, dist, radius, draws)
  }

  lemma SubStep(g: Graph, infra: InfraNodes, m0: Graph, m: Graph, m1: Graph, i: nat, dist: Dist, radius: real,
                draws: nat -> real)
    requires Valid(g) && Symmetric(dist) && ListsInGraph(g, infra) && i < |infra.substations|
    requires SubInv(g, infra, m0, m, i, dist, radius, draws)
    requires m1 == FeedEdges(g, m, infra.substations[i], dist, radius, draws,
                             SubOffset(g, infra.substations, i, dist, radius), |g.ids|)
    ensures SubInv(g, infra, m0, m1, i + 1, dist, radius, draws)
  {
    var subs := infra.substations;
    FeedInvariant(g, infra, m, subs[i], dist, radius, draws, i, SubOffset(g, subs, i, dist, radius), |g.ids|);
    FedStep(g, m, m1, subs, i, dist, radius, draws);
    KeepsTypeTrans(m0, m, m1, "power", dist);
  }

  /**
   * Phase 2: substations in list order, each taking its draws from the shared
   * stream where the previous one stopped. Power edges already present stay.
   */
  method WireSubstations(g: Graph, infra: InfraNodes, m0: Graph, dist: Dist, radius: real, draws: nat -> real)
    returns (m: Graph)
    requires Valid(g) && ListsInGraph(g, infra) && Symmetric(dist)
    requires OnlyWired(g, m0, infra, dist, radius, draws)
    ensures OnlyWired(g, m, infra, dist, radius, draws) && KeepsType(m0, m, "power", dist)
    ensures FedUpTo(g, m, infra.substations, |infra.substations|, dist, radius, draws)
  {
    var subs := infra.substations;
    m := m0;
    var k := 0;
    for i := 0 to |subs|
      invariant SubInv(g, infra, m0, m, i, dist, radius, draws)
      invariant k == SubOffset(g, subs, i, dist, radius)
    {
      ghost var before := m;
      m, k := FeedFromSubstation(g, m, subs[i], dist, radius, draws, k);
      SubStep(g, infra, m0, before, m, i, dist, radius, draws);
    }
  }

  // ---------------------------------------------------------------
  // Phases 3 and 4: water treatment, emergency services
  // ---------------------------------------------------------------

  /** Nodes of distinct wiring roles are distinct when the lists are typed. */
  lemma TypedDisjoint(g: Graph, infra: InfraNodes)
    requires Typed(g, infra)
    ensures forall x :: x in infra.powerPlants + infra.substations ==>
      x !in infra.waterTreatment && x !in infra.waterSupply && x !in EmergencyNodes(infra)
    ensures forall x :: x in infra.waterTreatment ==> x !in EmergencyNodes(infra)
  {
    forall x | x in EmergencyNodes(infra)
      ensures x !in infra.powerPlants && x !in infra.substations && x !in infra.waterTreatment
    {
      assert g.nodes[x].infraType in {"Hospital", "Fire Station", "Police Station", "Ambulance Depot"};
    }
  }

  /** `m` has every edge of `m0` that touches a member of `xs`, unchanged. */
  ghost predicate KeepsAt(m0: Graph, m: Graph, xs: seq<NodeId>)
  {
    forall k :: k in m0.edges && (k.lo in xs || k.hi in xs) ==> k in m.edges && m.edges[k] == m0.edges[k]
  }

  lemma KeepsAtTrans(m0: Graph, m1: Graph, m2: Graph, xs: seq<NodeId>)
    requires KeepsAt(m0, m1, xs) && KeepsAt(m1, m2, xs)
    ensures KeepsAt(m0, m2, xs)
  {
  }

  /** A star whose centre and members avoid `xs` keeps every edge at `xs`. */
  lemma StarKeepsAt(m0: Graph, m: Graph, c: NodeId, bs: seq<NodeId>, xs: seq<NodeId>)
    requires Valid(m0) && SameOutside(m0, m, StarKeys(c, bs))
    requires c !in xs && forall b :: b in bs ==> b !in xs
    ensures KeepsAt(m0, m, xs)
  {
    forall k | k in m0.edges && (k.lo in xs || k.hi in xs)
      ensures k !in StarKeys(c, bs)
    {
      assert Key(k.lo, k.hi) == k;
      StarKeysAvoid(c, bs, k.lo, k.hi);
    }
  }

  /** Keeping the edges at the power plants keeps them wired. */
  lemma KeepsAtPower(infra: InfraNodes, m0: Graph, m: Graph, xs: seq<NodeId>, dist: Dist)
    requires KeepsAt(m0, m, xs) && PowerDone(m0, infra, dist) && forall a :: a in infra.powerPlants ==> a in xs
    ensures PowerDone(m, infra, dist)
  {
    forall a, b | a in infra.powerPlants
      ensures Key(a, b).lo in xs || Key(a, b).hi in xs
    {
    }
  }

  /** Keeping the edges at the water treatment plants keeps them wired. */
  lemma KeepsAtWater(infra: InfraNodes, m0: Graph, m: Graph, xs: seq<NodeId>, dist: Dist)
    requires KeepsAt(m0, m, xs) && WaterDone(m0, infra, dist) && forall a :: a in infra.waterTreatment ==> a in xs
    ensures WaterDone(m, infra, dist)
  {
    forall a, b | a in infra.waterTreatment
      ensures Key(a, b).lo in xs || Key(a, b).hi in xs
    {
    }
  }

  /** Keeping the edges at the substations keeps every consumer they selected. */
  lemma KeepsAtFed(g: Graph, m0: Graph, m: Graph, subs: seq<NodeId>, xs: seq<NodeId>, dist: Dist, radius: real,
                   draws: nat -> real)
    requires Valid(g) && KeepsAt(m0, m, xs) && forall a :: a in subs ==> a in xs
    requires FedUpTo(g, m0, subs, |subs|, dist, radius, draws)
    ensures FedUpTo(g, m, subs, |subs|, dist, radius, draws)
  {
    forall l, j | 0 <= l < |subs| && 0 <= j < |g.ids|
      ensures Key(subs[l], g.ids[j]).lo in xs || Key(subs[l], g.ids[j]).hi in xs
    {
      assert subs[l] in subs;
    }
  }

  /** Phase 3: every water treatment plant is wired to every water supply and every hospital. */
  method WireWater(g: Graph, infra: InfraNodes, m0: Graph, dist: Dist, radius: real, ghost draws: nat -> real) returns (m: Graph)
    requires Valid(g) && ListsInGraph(g, infra) && Symmetric(dist)
    requires OnlyWired(g, m0, infra, dist, radius, draws)
    ensures OnlyWired(g, m, infra, dist, radius, draws) && WaterDone(m, infra, dist)
    ensures Typed(g, infra) ==> KeepsAt(m0, m, infra.powerPlants + infra.substations)
  {
    var wts := infra.waterTreatment;
    var wss := infra.waterSupply;
    var hs := infra.hospitals;
    ghost var typed := Typed(g, infra);
    ghost var kept := infra.powerPlants + infra.substations;
    m := m0;
    for i := 0 to |wts|
      invariant OnlyWired(g, m, infra, dist, radius, draws)
      invariant typed ==> KeepsAt(m0, m, kept)
      invariant PlantUpTo(m, wts, wss, hs, i, "water", dist)
    {
      var m1 := Star(m, wts[i], wss, "water", dist, false, 0.0);
      StarOnlyWired(g, m, m1, infra, dist, radius, draws, wts[i], wss, "water", false, 0.0);
      var m2 := Star(m1, wts[i], hs, "water", dist, false, 0.0);
      StarOnlyWired(g, m1, m2, infra, dist, radius, draws, wts[i], hs, "water", false, 0.0);
      PlantStep(m, m1, m2, wts, wss, hs, i, "water", dist);
      if typed {
        TypedDisjoint(g, infra);
        StarKeepsAt(m, m1, wts[i], wss, kept);
        StarKeepsAt(m1, m2, wts[i], hs, kept);
        KeepsAtTrans(m0, m, m1, kept);
        KeepsAtTrans(m0, m1, m2, kept);
      }
      m := m2;
    }
    assert wts[..|wts|] == wts;
  }

  /** The services at positions `a` and `b` are linked when closer than half the radius. */
  ghost predicate PairDone(m: Graph, em: seq<NodeId>, a: nat, b: nat, dist: Dist, radius: real)
    requires a < |em| && b < |em|
  {
    dist(em[a], em[b]) < radius * 0.5 ==> WiredAs(m, em[a], em[b], "emergency", dist)
  }

  /** The pairs whose first member comes before position `i` are linked when close. */
  ghost predicate EmergencyUpTo(m: Graph, em: seq<NodeId>, i: nat, dist: Dist, radius: real)
  {
    forall a, b :: 0 <= a < i && a < b < |em| ==> PairDone(m, em, a, b, dist, radius)
  }

  lemma EmergencyStep(m: Graph, m1: Graph, em: seq<NodeId>, i: nat, rest: seq<NodeId>, dist: Dist, radius: real)
    requires i < |em| && rest == em[i + 1..] && EmergencyUpTo(m, em, i, dist, radius)
    requires StarInv(m, m1, em[i], rest, |rest|, "emergency", dist, true, radius * 0.5)
    ensures EmergencyUpTo(m1, em, i + 1, dist, radius)
  {
    forall a, b | 0 <= a < i + 1 && a < b < |em| && dist(em[a], em[b]) < radius * 0.5
      ensures PairDone(m1, em, a, b, dist, radius)
    {
      if a < i {
        assert PairDone(m, em, a, b, dist, radius);
      } else {
        assert em[b] == rest[b - i - 1];
        assert em[b] in rest;
      }
    }
  }

  /** What holds after the services before position `i` have been linked. */
  ghost predicate EmergencyInv(g: Graph, infra: InfraNodes, m0: Graph, m: Graph, i: nat, dist: Dist, radius: real,
                               draws: nat -> real)
  {
    && OnlyWired(g, m, infra, dist, radius, draws)
    && (Typed(g, infra) ==> KeepsAt(m0, m, infra.powerPlants + infra.substations + infra.waterTreatment))
    && EmergencyUpTo(m, EmergencyNodes(infra), i, dist, radius)
  }

  lemma EmergencyLoopStep(g: Graph, infra: InfraNodes, m0: Graph, m: Graph, m1: Graph, i: nat, rest: seq<NodeId>,
                          dist: Dist, radius: real, draws: nat -> real)
    requires Valid(g) && i < |EmergencyNodes(infra)| && rest == EmergencyNodes(infra)[i + 1..]
    requires EmergencyInv(g, infra, m0, m, i, dist, radius, draws)
    requires StarInv(m, m1, EmergencyNodes(infra)[i], rest, |rest|, "emergency", dist, true, radius * 0.5)
    ensures EmergencyInv(g, infra, m0, m1, i + 1, dist, radius, draws)
  {
    var em := EmergencyNodes(infra);
    assert forall b :: b in rest ==> b in em;
    StarOnlyWired(g, m, m1, infra, dist, radius, draws, em[i], rest, "emergency", true, radius * 0.5);
    EmergencyStep(m, m1, em, i, rest, dist, radius);
    if Typed(g, infra) {
      var kept := infra.powerPlants + infra.substations + infra.waterTreatment;
      TypedDisjoint(g, infra);
      StarKeepsAt(m, m1, em[i], rest, kept);
      KeepsAtTrans(m0, m, m1, kept);
    }
  }

  /** One round of phase 4: service `i` is linked to every later service closer than half the radius. */
  method LinkFrom(g: Graph, infra: InfraNodes, m0: Graph, m: Graph, i: nat, dist: Dist, radius: real,
                  ghost draws: nat -> real)
    returns (m1: Graph)
    requires Valid(g) && ListsInGraph(g, infra) && Symmetric(dist) && i < |EmergencyNodes(infra)|
    requires EmergencyInv(g, infra, m0, m, i, dist, radius, draws)
    ensures EmergencyInv(g, infra, m0, m1, i + 1, dist, radius, draws)
  {
    var em := EmergencyNodes(infra);
    var rest := em[i + 1..];
    m1 := Star(m, em[i], rest, "emergency", dist, true, radius * 0.5);
    EmergencyLoopStep(g, infra, m0, m, m1, i, rest, dist, radius, draws);
  }

  /** Phase 4: every pair of emergency services closer than half the radius is linked. */
  method WireEmergency(g: Graph, infra: InfraNodes, m0: Graph, dist: Dist, radius: real, ghost draws: nat -> real)
    returns (m: Graph)
    requires Valid(g) && ListsInGraph(g, infra) && Symmetric(dist)
    requires OnlyWired(g, m0, infra, dist, radius, draws)
    ensures OnlyWired(g, m, infra, dist, radius, draws) && EmergencyUpTo(m, EmergencyNodes(infra), |EmergencyNodes(infra)|, dist, radius)
    ensures Typed(g, infra) ==> KeepsAt(m0, m, infra.powerPlants + infra.substations + infra.waterTreatment)
  {
    m := m0;
    for i := 0 to |EmergencyNodes(infra)|
      invariant EmergencyInv(g, infra, m0, m, i, dist, radius, draws)
    {
      m := LinkFrom(g, infra, m0, m, i, dist, radius, draws);
    }
  }

  /**
   * `_add_utility_edges`. The result differs from `g` only by edges that a
   * wiring rule creates, a substation's only towards the consumers its draws
   * selected; emergency services closer than half the radius are
   * linked; and, when each list holds the nodes of its type, every plant is
   * wired to all its partners and every substation to the consumers its
   * draws selected.
   */
  method AddUtilityEdges(g: Graph, infra: InfraNodes, dist: Dist, radius: real, draws: nat -> real) returns (m: Graph)
    requires Valid(g) && ListsInGraph(g, infra) && Symmetric(dist)
    ensures OnlyWired(g, m, infra, dist, radius, draws)
    ensures EmergencyUpTo(m, EmergencyNodes(infra), |EmergencyNodes(infra)|, dist, radius)
    ensures Typed(g, infra) ==>
      && PowerDone(m, infra, dist) && WaterDone(m, infra, dist)
      && FedUpTo(g, m, infra.substations, |infra.substations|, dist, radius, draws)
  {
    var m1 := WirePowerPlants(g, infra, dist, radius, draws);
    var m2 := WireSubstations(g, infra, m1, dist, radius, draws);
    var m3 := WireWater(g, infra, m2, dist, radius, draws);
    m := WireEmergency(g, infra, m3, dist, radius, draws);
    if Typed(g, infra) {
      var pps, subs, wts := infra.powerPlants, infra.substations, infra.waterTreatment;
      KeepsTypePower(infra, m1, m2, dist);
      KeepsAtPower(infra, m2, m3, pps + subs, dist);
      KeepsAtPower(infra, m3, m, pps + subs + wts, dist);
      KeepsAtWater(infra, m3, m, pps + subs + wts, dist);
      KeepsAtFed(g, m2, m3, subs, pps + subs, dist, radius, draws);
      KeepsAtFed(g, m3, m, subs, pps + subs + wts, dist, radius, draws);
    }
  }
}
