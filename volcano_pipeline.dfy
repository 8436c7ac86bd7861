/**
 * `volcano_pipeline.py`: each volcano record of the hazard notification
 * service is enriched with its threat, alert and colour scores and with
 * statistics of the earthquakes near it, scored on a 0-100 scale, and
 * looked up by distance from a user location. The distance (haversine,
 * rounded to 0.1 km) and the rounding of averages and scores are
 * parameters of the model.
 */
module VolcanoPipeline {
  import opened Wrappers
  import opened Text
  import opened Sorting
  import opened Numeric

  // ---------------------------------------------------------------------
  // Score tables
  // ---------------------------------------------------------------------

  /** `THREAT_SCORES.get(threat, 0)`; a null threat level scores 0. */
  function ThreatScore(threat: Option<string>): (n: nat)
    ensures n <= 5
  {
    if threat.None? then 0
    else
      var l := threat.value;
      if l == "Very High Threat" then 5
      else if l == "High Threat" then 4
      else if l == "Moderate Threat" then 3
      else if l == "Low Threat" then 2
      else if l == "Very Low Threat" then 1
      else 0
  }

  /** Only the five assessed threat levels score above 0. */
  lemma ThreatScorePositive(l: string)
    ensures ThreatScore(Some(l)) > 0 <==> l in {"Very High Threat", "High Threat", "Moderate Threat", "Low Threat", "Very Low Threat"}
  {
  }

  /** `ALERT_SCORES.get(key, 0)` for a non-null key. */
  function AlertTable(key: string): (n: nat)
    ensures n <= 4
  {
    if key == "WARNING" then 4 else if key == "WATCH" then 3 else if key == "ADVISORY" then 2
    else if key == "NORMAL" then 1 else 0
  }

  /** `COLOR_SCORES.get(key, 0)` for a non-null key. */
  function ColorTable(key: string): (n: nat)
    ensures n <= 4
  {
    if key == "RED" then 4 else if key == "ORANGE" then 3 else if key == "YELLOW" then 2
    else if key == "GREEN" then 1 else 0
  }

  /** A value Python treats as true: present and non-empty. */
  predicate Truthy(x: Option<string>)
  {
    x.Some? && x.value != ""
  }

  /** `a or b`. */
  function Or(a: Option<string>, b: Option<string>): (r: Option<string>)
    ensures Truthy(a) ==> r == a
    ensures !Truthy(a) ==> r == b
  {
    if Truthy(a) then a else b
  }

  /** The alert score of an alert level, looked up in upper case; a false level looks up `None`, which scores 0. */
  function AlertScore(alert: Option<string>): (n: nat)
    ensures n <= 4
  {
    if Truthy(alert) then AlertTable(Upper(alert.value)) else 0
  }

  /** The colour score of a colour code, in the same way. */
  function ColorScore(color: Option<string>): (n: nat)
    ensures n <= 4
  {
    if Truthy(color) then ColorTable(Upper(color.value)) else 0
  }

  /** The alert and colour lookups ignore case. */
  lemma ScoresIgnoreCase(s: string)
    ensures AlertScore(Some(s)) == AlertScore(Some(Upper(s)))
    ensures ColorScore(Some(s)) == ColorScore(Some(Upper(s)))
  {
    UpperIdempotent(s);
  }

  // ---------------------------------------------------------------------
  // Records
  // ---------------------------------------------------------------------

  /** A volcano of the service's list; `None` is a missing field. */
  datatype Volcano = Volcano(vnum: Option<string>, name: Option<string>, region: Option<string>,
                             latitude: Option<real>, longitude: Option<real>, nvewsThreat: Option<string>)

  /** An entry of the elevated list, whose fields come in two spellings. */
  datatype Elevated = Elevated(alertLevel: Option<string>, alertLevelCamel: Option<string>,
                               colorCode: Option<string>, colorCodeCamel: Option<string>)

  /** The enriched record. */
  datatype Enriched = Enriched(
    vnum: string, name: string, region: string, latitude: Option<real>, longitude: Option<real>,
    isMonitored: bool, nvewsThreat: string, threatScore: nat,
    alertLevel: Option<string>, colorCode: Option<string>, alertScore: nat, colorScore: nat,
    eqCount: nat, eqMaxMag: real, eqAvgMag: real, eqAvgDepth: real, eqShallow: nat,
    risk: real)

  /** No seismicity and no composite score yet. */
  predicate Unseismic(e: Enriched)
  {
    e.eqCount == 0 && e.eqMaxMag == 0.0 && e.eqAvgMag == 0.0 && e.eqAvgDepth == 0.0 && e.eqShallow == 0 && e.risk == 0.0
  }

  /**
   * `enrich_volcano`: a record is monitored exactly when its number is in the
   * monitored set; its threat score comes from its threat label; and its
   * alert and colour stay unset, scoring 0, unless its number has an elevated
   * entry, whose scores are then those of its alert level and colour code.
   */
  function EnrichVolcano(v: Volcano, elevatedMap: map<string, Elevated>, monitored: set<string>): (e: Enriched)
    ensures e.vnum == v.vnum.GetOr("") && e.latitude == v.latitude && e.longitude == v.longitude
    ensures e.isMonitored <==> e.vnum in monitored
    ensures e.threatScore == ThreatScore(Some(v.nvewsThreat.GetOr("Unassigned"))) && e.threatScore <= 5
    ensures e.vnum !in elevatedMap ==> e.alertLevel.None? && e.colorCode.None? && e.alertScore == 0 && e.colorScore == 0
    ensures e.vnum in elevatedMap ==> e.alertScore == AlertScore(e.alertLevel) && e.colorScore == ColorScore(e.colorCode)
    ensures e.vnum in elevatedMap ==> && e.alertLevel == Or(elevatedMap[e.vnum].alertLevel, elevatedMap[e.vnum].alertLevelCamel)
                                      && e.colorCode == Or(elevatedMap[e.vnum].colorCode, elevatedMap[e.vnum].colorCodeCamel)
    ensures e.alertScore <= 4 && e.colorScore <= 4
    ensures Unseismic(e)
  {
    var vnum := v.vnum.GetOr("");
    var threat := v.nvewsThreat.GetOr("Unassigned");
    var base := Enriched(vnum, v.name.GetOr(""), v.region.GetOr(""), v.latitude, v.longitude,
                         vnum in monitored, threat, ThreatScore(Some(threat)),
                         None, None, 0, 0,
                         0, 0.0, 0.0, 0.0, 0,
                         0.0);
    if vnum in elevatedMap then
      var el := elevatedMap[vnum];
      var alert := Or(el.alertLevel, el.alertLevelCamel);
      var color := Or(el.colorCode, el.colorCodeCamel);
      base.(alertLevel := alert, colorCode := color, alertScore := AlertScore(alert), colorScore := ColorScore(color))
    else base
  }

  // ---------------------------------------------------------------------
  // Seismicity
  // ---------------------------------------------------------------------

  /** A feature of the earthquake service: its magnitude and its coordinates, `None` when missing or null. */
  datatype Quake = Quake(mag: Option<real>, coords: Option<seq<Option<real>>>)

  /** The depth: the third coordinate, or 0 when there is none; missing coordinates stand for `[0, 0, 0]`. */
  function DepthOf(q: Quake): Option<real>
  {
    var c := q.coords.GetOr([Some(0.0), Some(0.0), Some(0.0)]);
    if |c| > 2 then c[2] else Some(0.0)
  }

  /** The non-null magnitudes, in order. */
  function Mags(qs: seq<Quake>): (ms: seq<real>)
    ensures |ms| <= |qs|
  {
    if qs == [] then []
    else
      var q := qs[|qs| - 1];
      Mags(qs[..|qs| - 1]) + (if q.mag.Some? then [q.mag.value] else [])
  }

  /** The non-null depths, in order. */
  function Depths(qs: seq<Quake>): (ds: seq<real>)
    ensures |ds| <= |qs|
  {
    if qs == [] then []
    else
      var d := DepthOf(qs[|qs| - 1]);
      Depths(qs[..|qs| - 1]) + (if d.Some? then [d.value] else [])
  }

  /** The number of non-null depths below 5 km. */
  function Shallow(qs: seq<Quake>): nat
  {
    if qs == [] then 0
    else
      var d := DepthOf(qs[|qs| - 1]);
      Shallow(qs[..|qs| - 1]) + (if d.Some? && d.value < 5.0 then 1 else 0)
  }

  /** Shallow earthquakes are among those with a depth. */
  lemma {:induction false} ShallowBound(qs: seq<Quake>)
    ensures Shallow(qs) <= |Depths(qs)| <= |qs|
  {
    if qs != [] {
      ShallowBound(qs[..|qs| - 1]);
    }
  }

  /** `round(sum(xs) / len(xs), 2) if xs else 0.0`. */
  function RoundedMean(xs: seq<real>, rnd: real -> real): real
  {
    if xs == [] then 0.0 else rnd(Sum(xs) / |xs| as real)
  }

  /** The record after `enrich_with_seismicity`: unchanged for no earthquakes. */
  function SeismicOf(e: Enriched, qs: seq<Quake>, rnd: real -> real): Enriched
  {
    if qs == [] then e
    else
      var mags := Mags(qs);
      e.(eqCount := |qs|, eqMaxMag := if mags == [] then 0.0 else Max(mags),
         eqAvgMag := RoundedMean(mags, rnd), eqAvgDepth := RoundedMean(Depths(qs), rnd), eqShallow := Shallow(qs))
  }

  /** The loop of `enrich_with_seismicity`, collecting magnitudes and depths and counting shallow events. */
  method EnrichWithSeismicity(e: Enriched, qs: seq<Quake>, rnd: real -> real) returns (r: Enriched)
    ensures r == SeismicOf(e, qs, rnd)
  {
    if qs == [] {
      return e;
    }
    var mags: seq<real> := [];
    var depths: seq<real> := [];
    var shallow: nat := 0;
    for i := 0 to |qs|
      invariant mags == Mags(qs[..i]) && depths == Depths(qs[..i]) && shallow == Shallow(qs[..i])
    {
      assert qs[..i + 1][..i] == qs[..i];
      var q := qs[i];
      var depth := DepthOf(q);
      if q.mag.Some? {
        mags := mags + [q.mag.value];
      }
      if depth.Some? {
        depths := depths + [depth.value];
        if depth.value < 5.0 {
          shallow := shallow + 1;
        }
      }
    }
    assert qs[..|qs|] == qs;
    var maxMag := if mags == [] then 0.0 else Max(mags);
    var avgMag := if mags == [] then 0.0 else rnd(Sum(mags) / |mags| as real);
    var avgDepth := if depths == [] then 0.0 else rnd(Sum(depths) / |depths| as real);
    r := e.(eqCount := |qs|, eqMaxMag := maxMag, eqAvgMag := avgMag, eqAvgDepth := avgDepth, eqShallow := shallow);
  }

  /**
   * For at least one earthquake the count is the number of earthquakes, the
   * shallow count is at most that, and the maximum magnitude is the largest
   * non-null magnitude, or 0.0 when there is none; nothing else changes.
   */
  lemma SeismicFacts(e: Enriched, qs: seq<Quake>, rnd: real -> real)
    requires qs != []
    ensures SeismicOf(e, qs, rnd).eqCount == |qs|
    ensures SeismicOf(e, qs, rnd).eqShallow <= SeismicOf(e, qs, rnd).eqCount
    ensures Mags(qs) == [] ==> SeismicOf(e, qs, rnd).eqMaxMag == 0.0
    ensures Mags(qs) != [] ==> SeismicOf(e, qs, rnd).eqMaxMag in Mags(qs)
    ensures forall m :: m in Mags(qs) ==> m <= SeismicOf(e, qs, rnd).eqMaxMag
    ensures SeismicOf(e, qs, rnd).(eqCount := e.eqCount, eqMaxMag := e.eqMaxMag, eqAvgMag := e.eqAvgMag,
                                   eqAvgDepth := e.eqAvgDepth, eqShallow := e.eqShallow) == e
  {
    ShallowBound(qs);
  }

  // ---------------------------------------------------------------------
  // Composite score
  // ---------------------------------------------------------------------

  /** `min(x, 1.0)`. */
  function Cap(x: real): (c: real)
    ensures c <= 1.0 && c <= x
    ensures c == x || c == 1.0
  {
    if x < 1.0 then x else 1.0
  }

  /** The weighted sum before rounding: 25% threat, 25% alert, 15% colour, 15% count, 10% magnitude, 10% shallow. */
  function RawScore(e: Enriched): real
  {
    (e.threatScore as real / 5.0) * 25.0 + (e.alertScore as real / 4.0) * 25.0 + (e.colorScore as real / 4.0) * 15.0
    + Cap(e.eqCount as real / 200.0) * 15.0 + Cap(e.eqMaxMag / 6.0) * 10.0 + Cap(e.eqShallow as real / 50.0) * 10.0
  }

  /** `compute_risk_score`, with `round(score, 1)` as `rnd`. */
  function ComputeRiskScore(e: Enriched, rnd: real -> real): (r: Enriched)
    ensures r.(risk := e.risk) == e
  {
    e.(risk := rnd(RawScore(e)))
  }

  /** The scores within their tables' ranges and a non-negative maximum magnitude. */
  predicate InRange(e: Enriched)
  {
    e.threatScore <= 5 && e.alertScore <= 4 && e.colorScore <= 4 && e.eqMaxMag >= 0.0
  }

  /** Each seismic term is capped, so the composite lies in [0, 100]. */
  lemma RawScoreBounds(e: Enriched)
    requires InRange(e)
    ensures 0.0 <= RawScore(e) <= 100.0
  {
  }

  /**
   * The lower bound needs a non-negative maximum magnitude: with nothing
   * else scoring, a negative one, which the earthquake feed can report for
   * very small events, makes the composite negative.
   */
  lemma NegativeMagnitudeScore(e: Enriched)
    requires e.threatScore == 0 && e.alertScore == 0 && e.colorScore == 0 && e.eqCount == 0 && e.eqShallow == 0
    requires e.eqMaxMag < 0.0
    ensures RawScore(e) == e.eqMaxMag / 6.0 * 10.0 < 0.0
  {
  }

  /** The composite never falls when any score or count rises. */
  lemma RawScoreMonotone(a: Enriched, b: Enriched)
    requires a.threatScore <= b.threatScore && a.alertScore <= b.alertScore && a.colorScore <= b.colorScore
    requires a.eqCount <= b.eqCount && a.eqMaxMag <= b.eqMaxMag && a.eqShallow <= b.eqShallow
    ensures RawScore(a) <= RawScore(b)
  {
  }

  // ---------------------------------------------------------------------
  // Nearby volcanoes
  // ---------------------------------------------------------------------

  /** A copy of a record with its distance to the user. */
  datatype Near = Near(v: Enriched, distance: real)

  /** `haversine_km(user_lat, user_lon, lat, lon)` rounded to 0.1 km. */
  type Haversine = (real, real, real, real) -> real

  /** Both coordinates are present and non-zero, as Python's truth test requires. */
  predicate HasCoords(e: Enriched)
  {
    e.latitude.Some? && e.latitude.value != 0.0 && e.longitude.Some? && e.longitude.value != 0.0
  }

  function NearOf(e: Enriched, lat: real, lon: real, dist: Haversine): Near
    requires HasCoords(e)
  {
    Near(e, dist(lat, lon, e.latitude.value, e.longitude.value))
  }

  /** The `nearby` list before sorting: the records with coordinates, with their distances. */
  function Candidates(data: seq<Enriched>, lat: real, lon: real, dist: Haversine): seq<Near>
  {
    if data == [] then []
    else
      var e := data[|data| - 1];
      Candidates(data[..|data| - 1], lat, lon, dist) + (if HasCoords(e) then [NearOf(e, lat, lon, dist)] else [])
  }

  /** A candidate is a record with coordinates, at its distance, and every such record is a candidate. */
  lemma {:induction false} CandidatesMembers(data: seq<Enriched>, lat: real, lon: real, dist: Haversine, n: Near)
    ensures n in Candidates(data, lat, lon, dist) <==> n.v in data && HasCoords(n.v) && n == NearOf(n.v, lat, lon, dist)
  {
    if data != [] {
      var init := data[..|data| - 1];
      assert data == init + [data[|data| - 1]];
      CandidatesMembers(init, lat, lon, dist, n);
    }
  }

  function DistanceKey(n: Near): real
  {
    n.distance
  }

  /** `[v for v in s if v.distance <= radius]`. */
  function Within(s: seq<Near>, radius: real): (w: seq<Near>)
    ensures forall i :: 0 <= i < |w| ==> w[i].distance <= radius
    ensures |w| <= |s|
  {
    if s == [] then []
    else (if s[0].distance <= radius then [s[0]] else []) + Within(s[1..], radius)
  }

  /** The filter keeps exactly the entries within the radius. */
  lemma {:induction false} WithinMembers(s: seq<Near>, radius: real, n: Near)
    ensures n in Within(s, radius) <==> n in s && n.distance <= radius
  {
    if s != [] {
      WithinMembers(s[1..], radius, n);
      assert s == [s[0]] + s[1..];
    }
  }

  /** Filtering keeps the order. */
  lemma {:induction false} WithinSorted(s: seq<Near>, radius: real)
    requires SortedBy(s, DistanceKey)
    ensures SortedBy(Within(s, radius), DistanceKey)
  {
    if s != [] {
      var t := Within(s[1..], radius);
      SortedTail(s, DistanceKey);
      WithinSorted(s[1..], radius);
      if s[0].distance <= radius {
        forall y | y in t
          ensures DistanceKey(s[0]) <= DistanceKey(y)
        {
          WithinMembers(s[1..], radius, y);
          var k :| 0 <= k < |s| - 1 && s[1..][k] == y;
          assert s[k + 1] == y;
        }
        SortedCons(s[0], t, DistanceKey);
      }
    }
  }

  function AtMost(a: nat, b: nat): nat
  {
    if a <= b then a else b
  }

  /** `get_nearby_volcanoes`: the candidates sorted by distance, those within the radius, at most `topN` of them. */
  function NearbyOf(data: seq<Enriched>, lat: real, lon: real, radius: real, topN: nat, dist: Haversine): seq<Near>
  {
    var w := Within(SortBy(Candidates(data, lat, lon, dist), DistanceKey), radius);
    w[..AtMost(topN, |w|)]
  }

  /** The loop that builds `nearby`, then the sort, the radius filter and the slice. */
  method GetNearbyVolcanoes(data: seq<Enriched>, lat: real, lon: real, radius: real, topN: nat, dist: Haversine)
    returns (r: seq<Near>)
    ensures r == NearbyOf(data, lat, lon, radius, topN, dist)
  {
    var nearby: seq<Near> := [];
    for i := 0 to |data|
      invariant nearby == Candidates(data[..i], lat, lon, dist)
    {
      assert data[..i + 1][..i] == data[..i];
      var v := data[i];
      if v.latitude.Some? && v.latitude.value != 0.0 && v.longitude.Some? && v.longitude.value != 0.0 {
        var d := dist(lat, lon, v.latitude.value, v.longitude.value);
        nearby := nearby + [Near(v, d)];
      }
    }
    assert data[..|data|] == data;
    var within := Within(SortBy(nearby, DistanceKey), radius);
    r := within[..AtMost(topN, |within|)];
  }

  /** The result is sorted by distance, lies within the radius and has at most `topN` entries. */
  lemma NearbySorted(data: seq<Enriched>, lat: real, lon: real, radius: real, topN: nat, dist: Haversine)
    ensures SortedBy(NearbyOf(data, lat, lon, radius, topN, dist), DistanceKey)
    ensures forall i :: 0 <= i < |NearbyOf(data, lat, lon, radius, topN, dist)| ==> NearbyOf(data, lat, lon, radius, topN, dist)[i].distance <= radius
    ensures |NearbyOf(data, lat, lon, radius, topN, dist)| <= topN
  {
    var s := SortBy(Candidates(data, lat, lon, dist), DistanceKey);
    var w := Within(s, radius);
    var r := NearbyOf(data, lat, lon, radius, topN, dist);
    assert r == w[..AtMost(topN, |w|)];
    WithinSorted(s, radius);
    forall i, j | 0 <= i < j < |r|
      ensures DistanceKey(r[i]) <= DistanceKey(r[j])
    {
      assert r[i] == w[i] && r[j] == w[j];
    }
  }

  /** Each entry is a record with coordinates of the input, at its distance from the user. */
  lemma NearbyMembers(data: seq<Enriched>, lat: real, lon: real, radius: real, topN: nat, dist: Haversine, n: Near)
    requires n in NearbyOf(data, lat, lon, radius, topN, dist)
    ensures n.v in data && HasCoords(n.v) && n == NearOf(n.v, lat, lon, dist)
  {
    var c := Candidates(data, lat, lon, dist);
    var s := SortBy(c, DistanceKey);
    var w := Within(s, radius);
    assert n in w;
    WithinMembers(s, radius, n);
    SortByMembers(c, DistanceKey);
    CandidatesMembers(data, lat, lon, dist, n);
  }

  /** A candidate within the radius is left out only when `topN` entries no farther than it were kept. */
  lemma NearbyComplete(data: seq<Enriched>, lat: real, lon: real, radius: real, topN: nat, dist: Haversine, n: Near)
    requires n in Candidates(data, lat, lon, dist) && n.distance <= radius
    requires n !in NearbyOf(data, lat, lon, radius, topN, dist)
    ensures |NearbyOf(data, lat, lon, radius, topN, dist)| == topN
    ensures forall i :: 0 <= i < topN ==> NearbyOf(data, lat, lon, radius, topN, dist)[i].distance <= n.distance
  {
    var c := Candidates(data, lat, lon, dist);
    var s := SortBy(c, DistanceKey);
    var w := Within(s, radius);
    var r := NearbyOf(data, lat, lon, radius, topN, dist);
    var k := AtMost(topN, |w|);
    assert r == w[..k];
    SortByMembers(c, DistanceKey);
    WithinMembers(s, radius, n);
    WithinSorted(s, radius);
    var j :| 0 <= j < |w| && w[j] == n;
    assert forall i :: 0 <= i < k ==> w[i] == r[i] && w[i] in r;
    assert k <= j;
    forall i | 0 <= i < topN
      ensures r[i].distance <= n.distance
    {
      assert r[i] == w[i];
      assert DistanceKey(w[i]) <= DistanceKey(w[j]);
    }
  }
}
