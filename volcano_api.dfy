/**
 * `volcano_api.py`: the `VolcanoClient` the service's backend uses. It holds
 * the enriched volcano list in `data`, rebuilds it from the three volcano
 * lists and the earthquake lookups, and answers proximity and risk queries.
 * The client keeps its own copies of the enrichment, seismicity and scoring
 * steps; each is related here to the pipeline's. The web requests, the cache
 * file and the language-model query are parameters or left out.
 */
module VolcanoApi {
  import opened Wrappers
  import opened Text
  import opened Assoc
  import opened Sorting
  import opened Numeric
  import opened VolcanoPipeline

  // ---------------------------------------------------------------------
  // The client's own enrichment steps
  // ---------------------------------------------------------------------

  /** `_enrich`, which looks up a missing threat level as the empty string. */
  function Enrich(v: Volcano, elevatedMap: map<string, Elevated>, monitored: set<string>): (e: Enriched)
    ensures e.threatScore == ThreatScore(v.nvewsThreat) && e.threatScore <= 5
    ensures e.isMonitored <==> e.vnum in monitored
    ensures e.vnum !in elevatedMap ==> e.alertScore == 0 && e.colorScore == 0
    ensures e.vnum in elevatedMap ==> e.alertScore == AlertScore(e.alertLevel) && e.colorScore == ColorScore(e.colorCode)
    ensures e.vnum == v.vnum.GetOr("") && e.latitude == v.latitude && e.longitude == v.longitude
    ensures e.vnum !in elevatedMap ==> e.alertLevel.None? && e.colorCode.None?
    ensures e.vnum in elevatedMap ==> && e.alertLevel == Or(elevatedMap[e.vnum].alertLevel, elevatedMap[e.vnum].alertLevelCamel)
                                      && e.colorCode == Or(elevatedMap[e.vnum].colorCode, elevatedMap[e.vnum].colorCodeCamel)
  {
    var vnum := v.vnum.GetOr("");
    var e := Enriched(vnum, v.name.GetOr(""), v.region.GetOr(""), v.latitude, v.longitude,
                      vnum in monitored, v.nvewsThreat.GetOr("Unassigned"), ThreatScore(Some(v.nvewsThreat.GetOr(""))),
                      None, None, 0, 0,
                      0, 0.0, 0.0, 0.0, 0,
                      0.0);
    if vnum in elevatedMap then
      var el := elevatedMap[vnum];
      var alert := Or(el.alertLevel, el.alertLevelCamel);
      var color := Or(el.colorCode, el.colorCodeCamel);
      e.(alertLevel := alert, colorCode := color, alertScore := AlertScore(alert), colorScore := ColorScore(color))
    else e
  }

  /** The client enriches a volcano exactly as the pipeline does. */
  lemma EnrichAgrees(v: Volcano, elevatedMap: map<string, Elevated>, monitored: set<string>)
    ensures Enrich(v, elevatedMap, monitored) == EnrichVolcano(v, elevatedMap, monitored)
  {
  }

  const TypeError: string := "TypeError"

  /** Some earthquake has a null depth, which `d < 5` cannot compare. */
  predicate NullDepth(qs: seq<Quake>)
  {
    exists i :: 0 <= i < |qs| && DepthOf(qs[i]).None?
  }

  /** The outcome of `_add_seismicity`, which has no early return and no null-depth check. */
  function SeismicityOf(e: Enriched, qs: seq<Quake>, rnd: real -> real): Result<Enriched>
  {
    if NullDepth(qs) then Failure(TypeError)
    else
      var mags := Mags(qs);
      Success(e.(eqCount := |qs|, eqMaxMag := if mags == [] then 0.0 else Max(mags),
                 eqAvgMag := RoundedMean(mags, rnd), eqAvgDepth := RoundedMean(Depths(qs), rnd), eqShallow := Shallow(qs)))
  }

  /** `_add_seismicity`: collects magnitudes and every depth, failing at the first null depth. */
  method AddSeismicity(e: Enriched, qs: seq<Quake>, rnd: real -> real) returns (r: Result<Enriched>)
    ensures r == SeismicityOf(e, qs, rnd)
  {
    var mags: seq<real> := [];
    var depths: seq<real> := [];
    var shallow: nat := 0;
    for i := 0 to |qs|
      invariant mags == Mags(qs[..i]) && depths == Depths(qs[..i]) && shallow == Shallow(qs[..i])
      invariant forall j :: 0 <= j < i ==> DepthOf(qs[j]).Some?
    {
      assert qs[..i + 1][..i] == qs[..i];
      var q := qs[i];
      var d := DepthOf(q);
      if q.mag.Some? {
        mags := mags + [q.mag.value];
      }
      if d.None? {
        return Failure(TypeError);
      }
      depths := depths + [d.value];
      if d.value < 5.0 {
        shallow := shallow + 1;
      }
    }
    assert qs[..|qs|] == qs;
    var maxMag := if mags == [] then 0.0 else Max(mags);
    var avgMag := if mags == [] then 0.0 else rnd(Sum(mags) / |mags| as real);
    var avgDepth := if depths == [] then 0.0 else rnd(Sum(depths) / |depths| as real);
    r := Success(e.(eqCount := |qs|, eqMaxMag := maxMag, eqAvgMag := avgMag, eqAvgDepth := avgDepth, eqShallow := shallow));
  }

  /**
   * The client's seismicity step fails exactly on a null depth; otherwise it
   * counts every earthquake, at least as many as the shallow ones, and agrees
   * with the pipeline's, or for no earthquakes leaves a fresh record as it was.
   */
  lemma SeismicityAgrees(e: Enriched, qs: seq<Quake>, rnd: real -> real)
    ensures SeismicityOf(e, qs, rnd).Failure? <==> NullDepth(qs)
    ensures SeismicityOf(e, qs, rnd).Success? ==>
              SeismicityOf(e, qs, rnd).value.eqCount == |qs| && SeismicityOf(e, qs, rnd).value.eqShallow <= |qs|
    ensures qs != [] && !NullDepth(qs) ==> SeismicityOf(e, qs, rnd) == Success(SeismicOf(e, qs, rnd))
    ensures qs == [] && Unseismic(e) ==> SeismicityOf(e, qs, rnd) == Success(e)
  {
    ShallowBound(qs);
  }

  /** `_compute_risk`'s weighted sum, written inline. */
  function Risk(e: Enriched): real
  {
    (e.threatScore as real / 5.0) * 25.0 + (e.alertScore as real / 4.0) * 25.0 + (e.colorScore as real / 4.0) * 15.0
    + (if e.eqCount as real / 200.0 < 1.0 then e.eqCount as real / 200.0 else 1.0) * 15.0
    + (if e.eqMaxMag / 6.0 < 1.0 then e.eqMaxMag / 6.0 else 1.0) * 10.0
    + (if e.eqShallow as real / 50.0 < 1.0 then e.eqShallow as real / 50.0 else 1.0) * 10.0
  }

  /** `_compute_risk`, with `round(score, 1)` as `rnd`: only the composite changes. */
  function ComputeRisk(e: Enriched, rnd: real -> real): (r: Enriched)
    ensures r.(risk := e.risk) == e
  {
    e.(risk := rnd(Risk(e)))
  }

  /** The client's formula is the pipeline's, so in range it lies in [0, 100]. */
  lemma RiskAgrees(e: Enriched, rnd: real -> real)
    ensures Risk(e) == RawScore(e)
    ensures ComputeRisk(e, rnd) == ComputeRiskScore(e, rnd)
    ensures InRange(e) ==> 0.0 <= Risk(e) <= 100.0
  {
    if InRange(e) {
      RawScoreBounds(e);
    }
  }

  // ---------------------------------------------------------------------
  // Rebuilding the data
  // ---------------------------------------------------------------------

  /** An entry of the elevated list: its volcano number and its fields. */
  datatype ElevatedEntry = ElevatedEntry(vnum: Option<string>, entry: Elevated)

  /** `{v.get("vnum", "") for v in monitored}`. */
  function MonitoredSet(monitored: seq<Option<string>>): (s: set<string>)
    ensures forall n :: n in s <==> exists m :: m in monitored && m.GetOr("") == n
  {
    set m | m in monitored :: m.GetOr("")
  }

  /** `{v.get("vnum", ""): v for v in elevated}`: a later entry replaces an earlier one. */
  function ElevatedMapOf(elevated: seq<ElevatedEntry>): map<string, Elevated>
  {
    if elevated == [] then map[]
    else
      var x := elevated[|elevated| - 1];
      ElevatedMapOf(elevated[..|elevated| - 1])[x.vnum.GetOr("") := x.entry]
  }

  /** Position `i` holds the last entry whose number is `n`. */
  ghost predicate LastWith(elevated: seq<ElevatedEntry>, n: string, i: nat)
  {
    i < |elevated| && elevated[i].vnum.GetOr("") == n && forall j :: i < j < |elevated| ==> elevated[j].vnum.GetOr("") != n
  }

  /** A number is mapped exactly when some entry has it. */
  lemma {:induction false} ElevatedMapHas(elevated: seq<ElevatedEntry>, n: string)
    ensures n in ElevatedMapOf(elevated) <==> exists i :: 0 <= i < |elevated| && elevated[i].vnum.GetOr("") == n
  {
    if elevated != [] {
      var k := |elevated| - 1;
      var init := elevated[..k];
      ElevatedMapHas(init, n);
      if elevated[k].vnum.GetOr("") == n {
        assert n in ElevatedMapOf(elevated);
      } else if n in ElevatedMapOf(elevated) {
        var i :| 0 <= i < k && init[i].vnum.GetOr("") == n;
        assert elevated[i] == init[i];
      }
    }
  }

  /** A mapped number leads to the last entry that has it. */
  lemma {:induction false} ElevatedMapLast(elevated: seq<ElevatedEntry>, n: string)
    requires n in ElevatedMapOf(elevated)
    ensures exists i: nat :: LastWith(elevated, n, i) && ElevatedMapOf(elevated)[n] == elevated[i].entry
  {
    var k := |elevated| - 1;
    var init := elevated[..k];
    if elevated[k].vnum.GetOr("") == n {
      assert LastWith(elevated, n, k);
    } else {
      ElevatedMapLast(init, n);
      var i: nat :| LastWith(init, n, i) && ElevatedMapOf(init)[n] == init[i].entry;
      assert elevated[i] == init[i];
      assert LastWith(elevated, n, i);
    }
  }

  /** What `refresh_data` makes of one volcano: enriched, with seismicity when it is monitored and placed, then scored. */
  function Refresh(v: Volcano, elevatedMap: map<string, Elevated>, monitored: set<string>, withSeismicity: bool,
                   pull: (real, real) -> seq<Quake>, rnd2: real -> real, rnd1: real -> real): Result<Enriched>
  {
    var e := Enrich(v, elevatedMap, monitored);
    if withSeismicity && e.isMonitored && HasCoords(e) then
      var s := SeismicityOf(e, pull(e.latitude.value, e.longitude.value), rnd2);
      if s.Failure? then Failure(s.error) else Success(ComputeRisk(s.value, rnd1))
    else Success(ComputeRisk(e, rnd1))
  }

  /** The `enriched` list before sorting, or the error that stops the loop. */
  function RefreshAll(allV: seq<Volcano>, elevatedMap: map<string, Elevated>, monitored: set<string>, withSeismicity: bool,
                      pull: (real, real) -> seq<Quake>, rnd2: real -> real, rnd1: real -> real): Result<seq<Enriched>>
  {
    if allV == [] then Success([])
    else
      var init := RefreshAll(allV[..|allV| - 1], elevatedMap, monitored, withSeismicity, pull, rnd2, rnd1);
      var last := Refresh(allV[|allV| - 1], elevatedMap, monitored, withSeismicity, pull, rnd2, rnd1);
      if init.Failure? then init
      else if last.Failure? then Failure(last.error)
      else Success(init.value + [last.value])
  }

  /** A refreshed record keeps the number and the scores its enrichment gave it. */
  predicate RecordOf(v: Volcano, x: Enriched, elevatedMap: map<string, Elevated>, monitored: set<string>)
  {
    var e := Enrich(v, elevatedMap, monitored);
    x.vnum == e.vnum && x.threatScore == e.threatScore && x.alertScore == e.alertScore &&
    x.colorScore == e.colorScore && x.isMonitored == e.isMonitored
  }

  /** One record per volcano, in order. */
  predicate RecordsOf(allV: seq<Volcano>, rs: seq<Enriched>, elevatedMap: map<string, Elevated>, monitored: set<string>)
  {
    |rs| == |allV| && forall i :: 0 <= i < |rs| ==> RecordOf(allV[i], rs[i], elevatedMap, monitored)
  }

  /** Refreshing one volcano fails only through a null depth, and otherwise keeps its enrichment's number and scores. */
  lemma RefreshOne(v: Volcano, elevatedMap: map<string, Elevated>, monitored: set<string>, withSeismicity: bool,
                   pull: (real, real) -> seq<Quake>, rnd2: real -> real, rnd1: real -> real)
    ensures Refresh(v, elevatedMap, monitored, withSeismicity, pull, rnd2, rnd1).Failure? ==>
              Refresh(v, elevatedMap, monitored, withSeismicity, pull, rnd2, rnd1).error == TypeError
    ensures Refresh(v, elevatedMap, monitored, withSeismicity, pull, rnd2, rnd1).Success? ==>
              RecordOf(v, Refresh(v, elevatedMap, monitored, withSeismicity, pull, rnd2, rnd1).value, elevatedMap, monitored)
  {
  }

  /** Rebuilding fails only through a null depth; otherwise it gives one record per volcano, in order, each enriched from it. */
  lemma {:induction false} RefreshAllShape(allV: seq<Volcano>, elevatedMap: map<string, Elevated>, monitored: set<string>, withSeismicity: bool,
                                           pull: (real, real) -> seq<Quake>, rnd2: real -> real, rnd1: real -> real)
    ensures RefreshAll(allV, elevatedMap, monitored, withSeismicity, pull, rnd2, rnd1).Failure? ==>
              RefreshAll(allV, elevatedMap, monitored, withSeismicity, pull, rnd2, rnd1).error == TypeError
    ensures RefreshAll(allV, elevatedMap, monitored, withSeismicity, pull, rnd2, rnd1).Success? ==>
              RecordsOf(allV, RefreshAll(allV, elevatedMap, monitored, withSeismicity, pull, rnd2, rnd1).value, elevatedMap, monitored)
  {
    if allV != [] {
      var k := |allV| - 1;
      var init := allV[..k];
      RefreshAllShape(init, elevatedMap, monitored, withSeismicity, pull, rnd2, rnd1);
      RefreshOne(allV[k], elevatedMap, monitored, withSeismicity, pull, rnd2, rnd1);
      var a := RefreshAll(init, elevatedMap, monitored, withSeismicity, pull, rnd2, rnd1);
      var b := Refresh(allV[k], elevatedMap, monitored, withSeismicity, pull, rnd2, rnd1);
      if a.Success? && b.Success? {
        var rs := a.value + [b.value];
        forall i | 0 <= i < |rs|
          ensures RecordOf(allV[i], rs[i], elevatedMap, monitored)
        {
          if i < k {
            assert rs[i] == a.value[i] && allV[i] == init[i];
          }
        }
      }
    }
  }

  /** A prefix one longer refreshes to the shorter prefix's list and one more record. */
  lemma RefreshStep(allV: seq<Volcano>, i: nat, acc: seq<Enriched>, x: Result<Enriched>, elevatedMap: map<string, Elevated>, monitored: set<string>,
                    withSeismicity: bool, pull: (real, real) -> seq<Quake>, rnd2: real -> real, rnd1: real -> real)
    requires i < |allV|
    requires RefreshAll(allV[..i], elevatedMap, monitored, withSeismicity, pull, rnd2, rnd1) == Success(acc)
    requires x == Refresh(allV[i], elevatedMap, monitored, withSeismicity, pull, rnd2, rnd1)
    ensures x.Success? ==> RefreshAll(allV[..i + 1], elevatedMap, monitored, withSeismicity, pull, rnd2, rnd1) == Success(acc + [x.value])
    ensures x.Failure? ==> RefreshAll(allV[..i + 1], elevatedMap, monitored, withSeismicity, pull, rnd2, rnd1) == Failure(x.error)
  {
    assert allV[..i + 1][..i] == allV[..i];
  }

  /** What `refresh_data` returns: the rebuilt list sorted by descending composite score, or the exception. */
  function Refreshed(allV: seq<Volcano>, monitored: seq<Option<string>>, elevated: seq<ElevatedEntry>, withSeismicity: bool,
                     pull: (real, real) -> seq<Quake>, rnd2: real -> real, rnd1: real -> real): Result<seq<Enriched>>
  {
    var all := RefreshAll(allV, ElevatedMapOf(elevated), MonitoredSet(monitored), withSeismicity, pull, rnd2, rnd1);
    if all.Failure? then Failure(all.error) else Success(SortBy(all.value, NegRisk))
  }

  /**
   * `refresh_data` fails only with the null-depth `TypeError`; otherwise it
   * returns one record per volcano, sorted by descending composite score,
   * a permutation of the records in list order.
   */
  lemma RefreshedFacts(allV: seq<Volcano>, monitored: seq<Option<string>>, elevated: seq<ElevatedEntry>, withSeismicity: bool,
                       pull: (real, real) -> seq<Quake>, rnd2: real -> real, rnd1: real -> real)
    ensures Refreshed(allV, monitored, elevated, withSeismicity, pull, rnd2, rnd1).Failure? ==>
              Refreshed(allV, monitored, elevated, withSeismicity, pull, rnd2, rnd1).error == TypeError
    ensures Refreshed(allV, monitored, elevated, withSeismicity, pull, rnd2, rnd1).Success? ==>
              var rs := Refreshed(allV, monitored, elevated, withSeismicity, pull, rnd2, rnd1).value;
              var all := RefreshAll(allV, ElevatedMapOf(elevated), MonitoredSet(monitored), withSeismicity, pull, rnd2, rnd1).value;
              SortedBy(rs, NegRisk) && multiset(rs) == multiset(all) && |rs| == |allV| &&
              RecordsOf(allV, all, ElevatedMapOf(elevated), MonitoredSet(monitored))
  {
    RefreshAllShape(allV, ElevatedMapOf(elevated), MonitoredSet(monitored), withSeismicity, pull, rnd2, rnd1);
  }

  /** The body of `refresh_data`'s loop for one volcano. */
  method RefreshVolcano(v: Volcano, elevatedMap: map<string, Elevated>, monitored: set<string>, withSeismicity: bool,
                        pull: (real, real) -> seq<Quake>, rnd2: real -> real, rnd1: real -> real) returns (x: Result<Enriched>)
    ensures x == Refresh(v, elevatedMap, monitored, withSeismicity, pull, rnd2, rnd1)
  {
    var e := Enrich(v, elevatedMap, monitored);
    if withSeismicity && e.isMonitored && e.latitude.Some? && e.latitude.value != 0.0 && e.longitude.Some? && e.longitude.value != 0.0 {
      var eqs := pull(e.latitude.value, e.longitude.value);
      var s := AddSeismicity(e, eqs, rnd2);
      if s.Failure? {
        return Failure(s.error);
      }
      e := s.value;
    }
    x := Success(ComputeRisk(e, rnd1));
  }

  /** The sort key of `sort(key=composite_risk_score, reverse=True)`. */
  function NegRisk(e: Enriched): real
  {
    -e.risk
  }

  // ---------------------------------------------------------------------
  // The client
  // ---------------------------------------------------------------------

  /** The reply of `get_risk`: an error dictionary, an exception, or the report. */
  datatype RiskReply =
    | ErrorReply(message: string)
    | Raised(exception: string)
    | Report(lat: real, lon: real, nearbyCount: nat, nearest: Option<Near>, maxRisk: real, elevated: seq<Near>, all: seq<Near>)

  /** An argument of `get_risk`: a string or a number. */
  datatype Arg = Str(s: string) | Num(x: real)

  /** `float(a)`; `parse` reads a numeric string, `None` where Python raises `ValueError`. */
  function ToFloat(a: Arg, parse: string -> Option<real>): Option<real>
  {
    match a
    case Str(s) => parse(s)
    case Num(x) => Some(x)
  }

  const Presets: Assoc<string, (real, real)> := [
    ("hawaii", (19.896, -155.582)), ("seattle", (47.606, -122.332)),
    ("portland", (45.505, -122.675)), ("anchorage", (61.217, -149.900)),
    ("manila", (14.599, 120.984)), ("tokyo", (35.682, 139.692)),
    ("naples", (40.852, 14.268)), ("mexico city", (19.432, -99.133)),
    ("san francisco", (37.774, -122.419)), ("los angeles", (34.052, -118.244))]

  const UnknownLocation: string :=
    "Unknown location. Use coords or: ['hawaii', 'seattle', 'portland', 'anchorage', 'manila', 'tokyo', 'naples', 'mexico city', 'san francisco', 'los angeles']"
  const Usage: string := "Usage: get_risk('Hawaii') or get_risk(19.4, -155.3)"
  const ValueError: string := "ValueError"

  /** `args[0].lower().strip()`. */
  function PresetKey(s: string): string
  {
    Strip(Lower(s))
  }

  /** The composite scores of the entries. */
  function Risks(nb: seq<Near>): (rs: seq<real>)
    ensures |rs| == |nb| && forall i :: 0 <= i < |nb| ==> rs[i] == nb[i].v.risk
  {
    if nb == [] then [] else Risks(nb[..|nb| - 1]) + [nb[|nb| - 1].v.risk]
  }

  /** `max((v.composite_risk_score for v in nb), default=0)`. */
  function MaxRisk(nb: seq<Near>): (m: real)
    ensures nb == [] ==> m == 0.0
    ensures nb != [] ==> (exists i :: 0 <= i < |nb| && nb[i].v.risk == m) && forall i :: 0 <= i < |nb| ==> nb[i].v.risk <= m
  {
    if nb == [] then 0.0
    else
      var rs := Risks(nb);
      var m := Max(rs);
      assert exists i :: 0 <= i < |rs| && rs[i] == m;
      m
  }

  /** `[v for v in nb if v.alert_score >= 2]`. */
  function ElevatedOf(nb: seq<Near>): (w: seq<Near>)
    ensures forall i :: 0 <= i < |w| ==> w[i].v.alertScore >= 2
  {
    if nb == [] then []
    else (if nb[0].v.alertScore >= 2 then [nb[0]] else []) + ElevatedOf(nb[1..])
  }

  /** The elevated list holds exactly the entries with an alert score of at least 2. */
  lemma {:induction false} ElevatedMembers(nb: seq<Near>, n: Near)
    ensures n in ElevatedOf(nb) <==> n in nb && n.v.alertScore >= 2
  {
    if nb != [] {
      ElevatedMembers(nb[1..], n);
      assert nb == [nb[0]] + nb[1..];
    }
  }

  /** The report for a location, from the ten nearest volcanoes within the radius. */
  function ReportAt(data: seq<Enriched>, lat: real, lon: real, radius: real, dist: Haversine): (r: RiskReply)
    ensures r.Report? && r.lat == lat && r.lon == lon && r.all == NearbyOf(data, lat, lon, radius, 10, dist)
    ensures r.nearbyCount == |r.all|
    ensures r.nearest.None? <==> r.all == []
    ensures r.all != [] ==> r.nearest == Some(r.all[0])
    ensures r.all == [] ==> r.maxRisk == 0.0
    ensures forall i :: 0 <= i < |r.all| ==> r.all[i].v.risk <= r.maxRisk
    ensures r.all != [] ==> exists i :: 0 <= i < |r.all| && r.all[i].v.risk == r.maxRisk
  {
    var nb := NearbyOf(data, lat, lon, radius, 10, dist);
    Report(lat, lon, |nb|, if nb == [] then None else Some(nb[0]), MaxRisk(nb), ElevatedOf(nb), nb)
  }

  class VolcanoClient {
    /** The enriched volcano list. */
    var data: seq<Enriched>

    /** `__init__` with `_load_cache`: the cached list when the cache file exists, otherwise empty. */
    constructor(cache: Option<seq<Enriched>>)
      ensures data == cache.GetOr([])
    {
      data := cache.GetOr([]);
    }

    /**
     * `refresh_data`: rebuilds the list from the volcano lists and the
     * earthquake lookups `pull`, sorted by descending composite score, and
     * stores it; an exception leaves the stored list as it was.
     */
    method RefreshData(allV: seq<Volcano>, monitored: seq<Option<string>>, elevated: seq<ElevatedEntry>, withSeismicity: bool,
                       pull: (real, real) -> seq<Quake>, rnd2: real -> real, rnd1: real -> real)
      returns (r: Result<seq<Enriched>>)
      modifies this
      ensures r == Refreshed(allV, monitored, elevated, withSeismicity, pull, rnd2, rnd1)
      ensures r.Failure? ==> data == old(data)
      ensures r.Success? ==> data == r.value
    {
      var monSet := MonitoredSet(monitored);
      var elevMap := ElevatedMapOf(elevated);
      var enriched: seq<Enriched> := [];
      for i := 0 to |allV|
        invariant RefreshAll(allV[..i], elevMap, monSet, withSeismicity, pull, rnd2, rnd1) == Success(enriched)
        invariant data == old(data)
      {
        var x := RefreshVolcano(allV[i], elevMap, monSet, withSeismicity, pull, rnd2, rnd1);
        RefreshStep(allV, i, enriched, x, elevMap, monSet, withSeismicity, pull, rnd2, rnd1);
        if x.Failure? {
          RefreshFailureSticks(allV, i + 1, elevMap, monSet, withSeismicity, pull, rnd2, rnd1);
          return Failure(x.error);
        }
        enriched := enriched + [x.value];
      }
      assert allV[..|allV|] == allV;
      enriched := SortBy(enriched, NegRisk);
      data := enriched;
      r := Success(enriched);
    }

    /** `nearby`: the records with coordinates by distance, those within the radius, at most `topN`. */
    method Nearby(lat: real, lon: real, radius: real, topN: nat, dist: Haversine) returns (r: seq<Near>)
      ensures r == NearbyOf(data, lat, lon, radius, topN, dist)
      ensures SortedBy(r, DistanceKey) && |r| <= topN
      ensures forall i :: 0 <= i < |r| ==> r[i].distance <= radius
    {
      var results: seq<Near> := [];
      for i := 0 to |data|
        invariant results == Candidates(data[..i], lat, lon, dist)
      {
        assert data[..i + 1][..i] == data[..i];
        var v := data[i];
        if v.latitude.Some? && v.latitude.value != 0.0 && v.longitude.Some? && v.longitude.value != 0.0 {
          results := results + [Near(v, dist(lat, lon, v.latitude.value, v.longitude.value))];
        }
      }
      assert data[..|data|] == data;
      var within := Within(SortBy(results, DistanceKey), radius);
      r := within[..AtMost(topN, |within|)];
      NearbySorted(data, lat, lon, radius, topN, dist);
    }

    /**
     * `get_risk`: one string argument names a preset location, or is an
     * unknown one; two arguments are coordinates, converted by `float`; any
     * other call is a usage error.
     */
    function GetRisk(args: seq<Arg>, radius: real, parse: string -> Option<real>, dist: Haversine): (r: RiskReply)
      reads this
      ensures |args| == 1 && args[0].Str? && !HasKey(Presets, PresetKey(args[0].s)) ==> r == ErrorReply(UnknownLocation)
      ensures |args| == 1 && args[0].Str? && HasKey(Presets, PresetKey(args[0].s)) ==>
                r.Report? && Get(Presets, PresetKey(args[0].s)) == Some((r.lat, r.lon))
      ensures |args| == 2 ==> (r.Raised? <==> ToFloat(args[0], parse).None? || ToFloat(args[1], parse).None?)
      ensures |args| == 2 && r.Report? ==> Some(r.lat) == ToFloat(args[0], parse) && Some(r.lon) == ToFloat(args[1], parse)
      ensures !(|args| == 1 && args[0].Str?) && |args| != 2 ==> r == ErrorReply(Usage)
      ensures r.Report? ==> r == ReportAt(data, r.lat, r.lon, radius, dist)
    {
      if |args| == 1 && args[0].Str? then
        var key := PresetKey(args[0].s);
        if !HasKey(Presets, key) then ErrorReply(UnknownLocation)
        else
          var p := Get(Presets, key).value;
          ReportAt(data, p.0, p.1, radius, dist)
      else if |args| == 2 then
        var a := ToFloat(args[0], parse);
        var b := ToFloat(args[1], parse);
        if a.None? || b.None? then Raised(ValueError)
        else ReportAt(data, a.value, b.value, radius, dist)
      else ErrorReply(Usage)
    }
  }

  /** Once a prefix fails, every longer prefix fails with the same error. */
  lemma {:induction false} RefreshFailureSticks(allV: seq<Volcano>, i: nat, elevatedMap: map<string, Elevated>, monitored: set<string>,
                                                withSeismicity: bool, pull: (real, real) -> seq<Quake>, rnd2: real -> real, rnd1: real -> real)
    requires i <= |allV|
    requires RefreshAll(allV[..i], elevatedMap, monitored, withSeismicity, pull, rnd2, rnd1).Failure?
    ensures RefreshAll(allV, elevatedMap, monitored, withSeismicity, pull, rnd2, rnd1) ==
            RefreshAll(allV[..i], elevatedMap, monitored, withSeismicity, pull, rnd2, rnd1)
    decreases |allV| - i
  {
    if i < |allV| {
      assert allV[..i + 1][..i] == allV[..i];
      RefreshFailureSticks(allV, i + 1, elevatedMap, monitored, withSeismicity, pull, rnd2, rnd1);
    } else {
      assert allV[..i] == allV;
    }
  }

  /** Every entry of a report is within the radius, sorted, at most ten, and the elevated ones are exactly those with alert score at least 2. */
  lemma ReportFacts(data: seq<Enriched>, lat: real, lon: real, radius: real, dist: Haversine, n: Near)
    ensures SortedBy(ReportAt(data, lat, lon, radius, dist).all, DistanceKey) && |ReportAt(data, lat, lon, radius, dist).all| <= 10
    ensures n in ReportAt(data, lat, lon, radius, dist).elevated <==> n in ReportAt(data, lat, lon, radius, dist).all && n.v.alertScore >= 2
  {
    NearbySorted(data, lat, lon, radius, 10, dist);
    ElevatedMembers(NearbyOf(data, lat, lon, radius, 10, dist), n);
  }
}
