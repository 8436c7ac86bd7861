/**
 * `earthquake_preprocessor.py`: condenses the earthquake list of the
 * earthquake module into the summary and event list the prediction prompt is
 * built from. Timestamps are parsed by the `parse` parameter into seconds, and
 * `round`, `sqrt` and the time format are parameters as well.
 */
module QuakePreprocessor {
  import opened Wrappers
  import opened Numeric
  import opened Sorting
  import opened Assoc
  import opened Risk
  import QuakeMapper

  /** `round(x, digits)`. */
  type Round = (real, nat) -> real

  /** A record of the earthquake list; `None` is a null field. */
  datatype Quake = Quake(time: Option<string>, mag: Option<real>, depth: Option<real>, lat: Option<real>, lng: Option<real>, place: string)

  /** A record with its parsed timestamp, in seconds. */
  datatype Parsed = Parsed(q: Quake, t: real)

  /** The parsed timestamp: none for a false `time` or one `fromisoformat` rejects. */
  function TimeOf(q: Quake, parse: string -> Option<real>): Option<real>
  {
    if q.time.Some? && q.time.value != "" then parse(q.time.value) else None
  }

  /** The records with a timestamp, in input order. */
  function Timed(quakes: seq<Quake>, parse: string -> Option<real>): (ps: seq<Parsed>)
    ensures |ps| <= |quakes|
  {
    if quakes == [] then []
    else
      var q := quakes[|quakes| - 1];
      var t := TimeOf(q, parse);
      Timed(quakes[..|quakes| - 1], parse) + (if t.Some? then [Parsed(q, t.value)] else [])
  }

  /** The parse loop and the filter that drops records without a timestamp. */
  method ParseTimes(quakes: seq<Quake>, parse: string -> Option<real>) returns (parsed: seq<Parsed>)
    ensures parsed == Timed(quakes, parse)
  {
    parsed := [];
    for i := 0 to |quakes|
      invariant parsed == Timed(quakes[..i], parse)
    {
      assert quakes[..i + 1][..i] == quakes[..i];
      var q := quakes[i];
      var t: Option<real> := None;
      if q.time.Some? && q.time.value != "" {
        t := parse(q.time.value);
      }
      if t.Some? {
        parsed := parsed + [Parsed(q, t.value)];
      }
    }
    assert quakes[..|quakes|] == quakes;
  }

  /** The key of `sort(key=_dt, reverse=True)`. */
  function NegTime(p: Parsed): real
  {
    -p.t
  }

  /** The parsed records, newest first. */
  function NewestFirst(quakes: seq<Quake>, parse: string -> Option<real>): seq<Parsed>
  {
    SortBy(Timed(quakes, parse), NegTime)
  }

  /** Newest first: each timestamp is at least the next one, so every gap is non-negative; nothing is lost or added. */
  lemma NewestFirstOrder(quakes: seq<Quake>, parse: string -> Option<real>)
    ensures forall i :: 0 <= i < |NewestFirst(quakes, parse)| - 1 ==> NewestFirst(quakes, parse)[i].t - NewestFirst(quakes, parse)[i + 1].t >= 0.0
    ensures multiset(NewestFirst(quakes, parse)) == multiset(Timed(quakes, parse))
  {
    var ps := NewestFirst(quakes, parse);
    forall i | 0 <= i < |ps| - 1
      ensures ps[i].t - ps[i + 1].t >= 0.0
    {
      assert NegTime(ps[i]) <= NegTime(ps[i + 1]);
    }
  }

  /** A newest-first list: its first record is the newest and its last the oldest. */
  lemma NewestOldest(ps: seq<Parsed>)
    requires ps != [] && SortedBy(ps, NegTime)
    ensures forall p :: p in ps ==> ps[|ps| - 1].t <= p.t <= ps[0].t
  {
    forall p | p in ps
      ensures ps[|ps| - 1].t <= p.t <= ps[0].t
    {
      var i :| 0 <= i < |ps| && ps[i] == p;
      assert NegTime(ps[0]) <= NegTime(ps[i]) <= NegTime(ps[|ps| - 1]);
    }
  }

  // ---------------------------------------------------------------------
  // Columns
  // ---------------------------------------------------------------------

  datatype Column = Mag | Depth | Lat | Lng

  function Field(q: Quake, c: Column): Option<real>
  {
    match c
    case Mag => q.mag
    case Depth => q.depth
    case Lat => q.lat
    case Lng => q.lng
  }

  /** `[p[c] for p in ps if p[c] is not None]`. */
  function Present(ps: seq<Parsed>, c: Column): (xs: seq<real>)
    ensures |xs| <= |ps|
  {
    if ps == [] then []
    else
      var x := Field(ps[|ps| - 1].q, c);
      Present(ps[..|ps| - 1], c) + (if x.Some? then [x.value] else [])
  }

  /** The rounded minimum, maximum and mean of a column, or none of them for an empty column. */
  datatype Stats = Stats(min: Option<real>, max: Option<real>, avg: Option<real>)

  function StatsOf(xs: seq<real>, round: Round): (s: Stats)
    ensures xs == [] <==> s.min.None?
    ensures xs == [] <==> s.max.None?
    ensures xs == [] <==> s.avg.None?
  {
    if xs == [] then Stats(None, None, None)
    else Stats(Some(round(Min(xs), 2)), Some(round(Max(xs), 2)), Some(round(Sum(xs) / |xs| as real, 2)))
  }

  /** Before rounding, the mean of a non-empty column lies between its minimum and its maximum. */
  lemma StatsOrdered(xs: seq<real>)
    requires xs != []
    ensures Min(xs) <= Sum(xs) / |xs| as real <= Max(xs)
  {
    MeanBetween(xs, Min(xs), Max(xs));
  }

  // ---------------------------------------------------------------------
  // Magnitude buckets
  // ---------------------------------------------------------------------

  datatype Buckets = Buckets(minor: nat, light: nat, moderate: nat, strong: nat, major: nat)

  /** The bucket of a magnitude: below 3, 3 to 4, 4 to 5, 5 to 6, and 6 or more. */
  function BucketOf(m: real): (k: nat)
    ensures k < 5
    ensures k == 0 <==> m < 3.0
    ensures k == 1 <==> 3.0 <= m < 4.0
    ensures k == 2 <==> 4.0 <= m < 5.0
    ensures k == 3 <==> 5.0 <= m < 6.0
    ensures k == 4 <==> 6.0 <= m
  {
    if m < 3.0 then 0 else if m < 4.0 then 1 else if m < 5.0 then 2 else if m < 6.0 then 3 else 4
  }

  function Slot(b: Buckets, k: nat): nat
    requires k < 5
  {
    if k == 0 then b.minor else if k == 1 then b.light else if k == 2 then b.moderate else if k == 3 then b.strong else b.major
  }

  function Bump(b: Buckets, k: nat): (r: Buckets)
    requires k < 5
    ensures Slot(r, k) == Slot(b, k) + 1
    ensures forall j :: 0 <= j < 5 && j != k ==> Slot(r, j) == Slot(b, j)
  {
    if k == 0 then b.(minor := b.minor + 1)
    else if k == 1 then b.(light := b.light + 1)
    else if k == 2 then b.(moderate := b.moderate + 1)
    else if k == 3 then b.(strong := b.strong + 1)
    else b.(major := b.major + 1)
  }

  function BucketsOf(mags: seq<real>): Buckets
  {
    if mags == [] then Buckets(0, 0, 0, 0, 0)
    else Bump(BucketsOf(mags[..|mags| - 1]), BucketOf(mags[|mags| - 1]))
  }

  /** The bucket loop. */
  method CountBuckets(mags: seq<real>) returns (b: Buckets)
    ensures b == BucketsOf(mags)
  {
    b := Buckets(0, 0, 0, 0, 0);
    for i := 0 to |mags|
      invariant b == BucketsOf(mags[..i])
    {
      assert mags[..i + 1][..i] == mags[..i];
      var m := mags[i];
      if m < 3.0 {
        b := b.(minor := b.minor + 1);
      } else if m < 4.0 {
        b := b.(light := b.light + 1);
      } else if m < 5.0 {
        b := b.(moderate := b.moderate + 1);
      } else if m < 6.0 {
        b := b.(strong := b.strong + 1);
      } else {
        b := b.(major := b.major + 1);
      }
    }
    assert mags[..|mags|] == mags;
  }

  /** The magnitudes that fall in bucket `k`. */
  function CountIn(mags: seq<real>, k: nat): nat
  {
    if mags == [] then 0
    else CountIn(mags[..|mags| - 1], k) + (if BucketOf(mags[|mags| - 1]) == k then 1 else 0)
  }

  /** Each bucket counts exactly the magnitudes in its band, and the five counts add up to the number of magnitudes. */
  lemma {:induction false} BucketsCount(mags: seq<real>)
    ensures forall k :: 0 <= k < 5 ==> Slot(BucketsOf(mags), k) == CountIn(mags, k)
    ensures Slot(BucketsOf(mags), 0) + Slot(BucketsOf(mags), 1) + Slot(BucketsOf(mags), 2) +
            Slot(BucketsOf(mags), 3) + Slot(BucketsOf(mags), 4) == |mags|
  {
    if mags != [] {
      BucketsCount(mags[..|mags| - 1]);
    }
  }

  // ---------------------------------------------------------------------
  // Halves and trend
  // ---------------------------------------------------------------------

  /** `oldest + (newest - oldest) / 2`. */
  function Midpoint(ps: seq<Parsed>): real
    requires ps != []
  {
    ps[|ps| - 1].t + (ps[0].t - ps[|ps| - 1].t) / 2.0
  }

  /** `[p for p in ps if p._dt <= mid]`. */
  function FirstHalf(ps: seq<Parsed>, mid: real): (r: seq<Parsed>)
    ensures forall p :: p in r <==> p in ps && p.t <= mid
  {
    if ps == [] then []
    else
      assert ps == [ps[0]] + ps[1..];
      (if ps[0].t <= mid then [ps[0]] else []) + FirstHalf(ps[1..], mid)
  }

  /** `[p for p in ps if p._dt > mid]`. */
  function SecondHalf(ps: seq<Parsed>, mid: real): (r: seq<Parsed>)
    ensures forall p :: p in r <==> p in ps && p.t > mid
  {
    if ps == [] then []
    else
      assert ps == [ps[0]] + ps[1..];
      (if ps[0].t > mid then [ps[0]] else []) + SecondHalf(ps[1..], mid)
  }

  /** The halves partition the records. */
  lemma {:induction false} HalvesPartition(ps: seq<Parsed>, mid: real)
    ensures |FirstHalf(ps, mid)| + |SecondHalf(ps, mid)| == |ps|
    ensures multiset(FirstHalf(ps, mid)) + multiset(SecondHalf(ps, mid)) == multiset(ps)
  {
    if ps != [] {
      HalvesPartition(ps[1..], mid);
      assert ps == [ps[0]] + ps[1..];
    }
  }

  /** `max(x, floor)`. */
  function AtLeast(x: real, floor: real): (r: real)
    ensures r >= floor && r >= x && (r == x || r == floor)
  {
    if x > floor then x else floor
  }

  /** `span_days = max((newest - oldest) / 86400, 0.01)` over a newest-first list: never below 0.01 days, so it can divide. */
  function SpanDays(ps: seq<Parsed>): (d: real)
    requires ps != []
    ensures d >= 0.01
    ensures d == 0.01 || d == (ps[0].t - ps[|ps| - 1].t) / 86400.0
  {
    AtLeast((ps[0].t - ps[|ps| - 1].t) / 86400.0, 0.01)
  }

  /** `accel_ratio = round(freq_recent / freq_early, 2) if freq_early > 0 else None`. */
  function AccelRatio(ps: seq<Parsed>, round: Round): (r: Option<real>)
    requires ps != []
    ensures r.Some? <==> |FirstHalf(ps, Midpoint(ps))| > 0
  {
    var spanDays := SpanDays(ps);
    var halfDays := AtLeast(spanDays / 2.0, 0.01);
    var mid := Midpoint(ps);
    RateSign(|FirstHalf(ps, mid)|, halfDays);
    var early := |FirstHalf(ps, mid)| as real / halfDays;
    var recent := |SecondHalf(ps, mid)| as real / halfDays;
    if early > 0.0 then Some(round(recent / early, 2)) else None
  }

  /** The trend of an acceleration ratio. */
  function TrendOf(ratio: Option<real>): (trend: string)
    ensures ratio.None? <==> trend == "unknown"
    ensures ratio.Some? ==> (trend == "accelerating" <==> ratio.value > 1.5)
    ensures ratio.Some? ==> (trend == "decelerating" <==> ratio.value < 0.67)
    ensures ratio.Some? ==> (trend == "stable" <==> 0.67 <= ratio.value <= 1.5)
  {
    if ratio.None? then "unknown"
    else if ratio.value > 1.5 then "accelerating"
    else if ratio.value < 0.67 then "decelerating"
    else "stable"
  }

  /** Newest first, the oldest record is always in the first half, so the ratio is defined and the trend is never "unknown". */
  lemma RatioDefined(ps: seq<Parsed>, round: Round)
    requires ps != [] && SortedBy(ps, NegTime)
    ensures AccelRatio(ps, round).Some?
    ensures TrendOf(AccelRatio(ps, round)) != "unknown"
  {
    var oldest := ps[|ps| - 1];
    var mid := Midpoint(ps);
    assert oldest.t <= mid by {
      assert NegTime(ps[0]) <= NegTime(oldest);
    }
    assert oldest in FirstHalf(ps, mid);
  }

  /** Over a positive span, the rate is positive exactly when the count is. */
  lemma RateSign(count: nat, span: real)
    requires span > 0.0
    ensures count as real / span > 0.0 <==> count > 0
  {
    if count > 0 {
      assert count as real / span > 0.0;
    }
  }

  // ---------------------------------------------------------------------
  // Gaps, spread and events
  // ---------------------------------------------------------------------

  /** The hours from record `i + 1` to record `i`, rounded to 0.1. */
  function GapAt(ps: seq<Parsed>, i: nat, round: Round): real
    requires i + 1 < |ps|
  {
    round((ps[i].t - ps[i + 1].t) / 3600.0, 1)
  }

  /** `gaps_hours`: one gap per pair of consecutive records, in order. */
  function GapsOf(ps: seq<Parsed>, round: Round): (gaps: seq<real>)
    ensures |gaps| == if ps == [] then 0 else |ps| - 1
    ensures forall i :: 0 <= i < |gaps| ==> gaps[i] == GapAt(ps, i, round)
  {
    if |ps| < 2 then [] else GapsOf(ps[..|ps| - 1], round) + [GapAt(ps, |ps| - 2, round)]
  }

  /** Newest first, and with a rounding that keeps non-negative values non-negative, no gap and so not `min_gap_hours` is negative. */
  lemma GapsNonNegative(ps: seq<Parsed>, round: Round)
    requires SortedBy(ps, NegTime)
    requires forall x: real, d: nat :: x >= 0.0 ==> round(x, d) >= 0.0
    ensures forall i :: 0 <= i < |GapsOf(ps, round)| ==> GapsOf(ps, round)[i] >= 0.0
    ensures |ps| >= 2 ==> Min(GapsOf(ps, round)) >= 0.0
  {
    var gaps := GapsOf(ps, round);
    forall i | 0 <= i < |gaps|
      ensures gaps[i] >= 0.0
    {
      assert NegTime(ps[i]) <= NegTime(ps[i + 1]);
      assert (ps[i].t - ps[i + 1].t) / 3600.0 >= 0.0;
    }
  }

  /** The gap loop: the hours between consecutive records, rounded to 0.1. */
  method Gaps(ps: seq<Parsed>, round: Round) returns (gaps: seq<real>)
    ensures |gaps| == if ps == [] then 0 else |ps| - 1
    ensures forall i :: 0 <= i < |gaps| ==> gaps[i] == round((ps[i].t - ps[i + 1].t) / 3600.0, 1)
    ensures gaps == GapsOf(ps, round)
  {
    gaps := [];
    var i := 0;
    while i + 1 < |ps|
      invariant (ps == [] && i == 0) || i <= |ps| - 1
      invariant |gaps| == i
      invariant forall j :: 0 <= j < i ==> gaps[j] == round((ps[j].t - ps[j + 1].t) / 3600.0, 1)
    {
      gaps := gaps + [round((ps[i].t - ps[i + 1].t) / 3600.0, 1)];
      i := i + 1;
    }
  }

  /** `round(_std(xs), 4) if len(xs) > 1 else 0`. */
  function Spread(xs: seq<real>, round: Round, sqrt: real -> real): (s: real)
    ensures |xs| <= 1 ==> s == 0.0
  {
    if |xs| > 1 then round(Std(xs, sqrt), 4) else 0.0
  }

  /** A record of the condensed event list. */
  datatype Event = Event(mag: Option<real>, depth: Option<real>, lat: Option<real>, lng: Option<real>, time: string, place: string)

  /** `round(x, digits) if x else None`: a zero or null value becomes null. */
  function RoundTruthy(x: Option<real>, digits: nat, round: Round): (r: Option<real>)
    ensures r.None? <==> x.None? || x.value == 0.0
  {
    if x.Some? && x.value != 0.0 then Some(round(x.value, digits)) else None
  }

  function EventOf(p: Parsed, round: Round, timeFormat: real -> string): Event
  {
    Event(p.q.mag, RoundTruthy(p.q.depth, 1, round), RoundTruthy(p.q.lat, 3, round), RoundTruthy(p.q.lng, 3, round),
          timeFormat(p.t), p.q.place)
  }

  /** The event loop: one condensed event per record, in the same order. */
  method Condense(ps: seq<Parsed>, round: Round, timeFormat: real -> string) returns (events: seq<Event>)
    ensures |events| == |ps|
    ensures forall i :: 0 <= i < |ps| ==> events[i] == EventOf(ps[i], round, timeFormat)
  {
    events := [];
    for i := 0 to |ps|
      invariant |events| == i
      invariant forall j :: 0 <= j < i ==> events[j] == EventOf(ps[j], round, timeFormat)
    {
      events := events + [EventOf(ps[i], round, timeFormat)];
    }
  }

  /** The events as the earthquake mapper reads them. */
  function MapperEvents(events: seq<Event>): (r: seq<QuakeMapper.Event>)
    ensures |r| == |events|
  {
    if events == [] then []
    else
      var e := events[|events| - 1];
      MapperEvents(events[..|events| - 1]) + [QuakeMapper.Event(e.lat, e.lng, e.mag)]
  }

  // ---------------------------------------------------------------------
  // The summary
  // ---------------------------------------------------------------------

  datatype Summary = Summary(
    location: string, totalEvents: nat, timeSpanDays: real,
    magnitude: Stats, buckets: Buckets, depth: Stats,
    eventsPerDay: real, trend: string, accelRatio: Option<real>, avgGap: Option<real>, minGap: Option<real>,
    latCenter: Option<real>, lngCenter: Option<real>, latStd: real, lngStd: real, clustered: bool)

  /** The result of `preprocess`: the short report for no usable data, or the summary, the events and the coordinate map. */
  datatype Output =
    | NoData(location: string, prompt: string)
    | Report(summary: Summary, events: seq<Event>, coordMap: Assoc<string, Level>)

  /** The `total_events` of the summary: 0 in the short report. */
  function TotalEvents(o: Output): nat
  {
    if o.NoData? then 0 else o.summary.totalEvents
  }

  /** The `events` list: empty in the short report. */
  function EventList(o: Output): seq<Event>
  {
    if o.NoData? then [] else o.events
  }

  /** `round(sum(xs) / len(xs), digits) if xs else None`. */
  function MeanOr(xs: seq<real>, digits: nat, round: Round): Option<real>
  {
    if xs == [] then None else Some(round(Sum(xs) / |xs| as real, digits))
  }

  /**
   * `preprocess`: no records, or none with a timestamp, give the short
   * report; otherwise the summary counts the records, buckets the
   * magnitudes, classifies the trend and the clustering, and the events
   * follow the records newest first, one each.
   */
  method Preprocess(quakes: seq<Quake>, location: string, parse: string -> Option<real>, round: Round, sqrt: real -> real,
                    timeFormat: real -> string, keyFormat: QuakeMapper.KeyFormat) returns (r: Output)
    ensures quakes == [] ==> r == NoData(location, "No recent earthquake data available for " + location + ".")
    ensures quakes != [] && Timed(quakes, parse) == [] ==> r == NoData(location, "No valid earthquake data for " + location + ".")
    ensures r.Report? <==> Timed(quakes, parse) != []
    ensures TotalEvents(r) == |Timed(quakes, parse)| == |EventList(r)|
    ensures r.Report? ==> |r.events| == |NewestFirst(quakes, parse)|
    ensures r.Report? ==> forall i :: 0 <= i < |r.events| ==> r.events[i] == EventOf(NewestFirst(quakes, parse)[i], round, timeFormat)
    ensures r.Report? ==> r.summary.buckets == BucketsOf(Present(NewestFirst(quakes, parse), Mag))
    ensures r.Report? ==> r.summary.magnitude == StatsOf(Present(NewestFirst(quakes, parse), Mag), round)
    ensures r.Report? ==> r.summary.depth == StatsOf(Present(NewestFirst(quakes, parse), Depth), round)
    ensures r.Report? ==> r.summary.accelRatio == AccelRatio(NewestFirst(quakes, parse), round)
    ensures r.Report? ==> r.summary.trend == TrendOf(r.summary.accelRatio)
    ensures r.Report? ==> r.summary.latStd == Spread(Present(NewestFirst(quakes, parse), Lat), round, sqrt)
    ensures r.Report? ==> r.summary.lngStd == Spread(Present(NewestFirst(quakes, parse), Lng), round, sqrt)
    ensures r.Report? ==> (r.summary.clustered <==> r.summary.latStd < 0.5 && r.summary.lngStd < 0.5)
    ensures r.Report? ==> r.coordMap == QuakeMapper.MapOf(MapperEvents(r.events), keyFormat)
    ensures r.Report? ==> r.summary.location == location
    ensures r.Report? ==> r.summary.timeSpanDays == round(SpanDays(NewestFirst(quakes, parse)), 1)
    ensures r.Report? ==> r.summary.eventsPerDay == round(|NewestFirst(quakes, parse)| as real / SpanDays(NewestFirst(quakes, parse)), 2)
    ensures r.Report? ==> r.summary.avgGap == MeanOr(GapsOf(NewestFirst(quakes, parse), round), 1, round)
    ensures r.Report? ==> r.summary.minGap == (if |NewestFirst(quakes, parse)| < 2 then None else Some(Min(GapsOf(NewestFirst(quakes, parse), round))))
    ensures r.Report? ==> r.summary.latCenter == MeanOr(Present(NewestFirst(quakes, parse), Lat), 4, round)
    ensures r.Report? ==> r.summary.lngCenter == MeanOr(Present(NewestFirst(quakes, parse), Lng), 4, round)
  {
    if quakes == [] {
      return NoData(location, "No recent earthquake data available for " + location + ".");
    }
    var parsed := ParseTimes(quakes, parse);
    parsed := SortBy(parsed, NegTime);
    if parsed == [] {
      return NoData(location, "No valid earthquake data for " + location + ".");
    }
    var mags := Present(parsed, Mag);
    var depths := Present(parsed, Depth);
    var lats := Present(parsed, Lat);
    var lngs := Present(parsed, Lng);
    var spanDays := SpanDays(parsed);
    var ratio := AccelRatio(parsed, round);
    var gaps := Gaps(parsed, round);
    var buckets := CountBuckets(mags);
    var latStd := Spread(lats, round, sqrt);
    var lngStd := Spread(lngs, round, sqrt);
    var summary := Summary(
      location, |parsed|, round(spanDays, 1),
      StatsOf(mags, round), buckets, StatsOf(depths, round),
      round(|parsed| as real / spanDays, 2), TrendOf(ratio), ratio,
      MeanOr(gaps, 1, round), if gaps == [] then None else Some(Min(gaps)),
      MeanOr(lats, 4, round), MeanOr(lngs, 4, round), latStd, lngStd, latStd < 0.5 && lngStd < 0.5);
    var events := Condense(parsed, round, timeFormat);
    var coordMap := QuakeMapper.GenerateMap(MapperEvents(events), keyFormat);
    r := Report(summary, events, coordMap);
  }
}
