/**
 * `flood_preprocessor.py`: condenses the daily river-discharge series of the
 * flood module (past days and forecast days) into the summary and event list
 * the prediction prompt is built from: statistics, a seven-day trend, spikes
 * and forecast days above the historical peak. `round` and `sqrt` are
 * parameters.
 */
module FloodPreprocessor {
  import opened Wrappers
  import opened Numeric

  /** `round(x, digits)`. */
  type Round = (real, nat) -> real

  /** A day of the series; the forecast fields are null on past days. */
  datatype Day = Day(date: string, isForecast: bool, discharge: Option<real>, mean: Option<real>, max: Option<real>, min: Option<real>)

  /** The flood module's result: an error message, if any, and the days. */
  datatype FloodData = FloodData(error: Option<string>, daily: seq<Day>)

  // ---------------------------------------------------------------------
  // Partition
  // ---------------------------------------------------------------------

  /** `[d for d in daily if not d.is_forecast]`. */
  function Historical(daily: seq<Day>): (r: seq<Day>)
    ensures forall d :: d in r ==> !d.isForecast
  {
    if daily == [] then []
    else Historical(daily[..|daily| - 1]) + (if daily[|daily| - 1].isForecast then [] else [daily[|daily| - 1]])
  }

  /** `[d for d in daily if d.is_forecast]`. */
  function Forecast(daily: seq<Day>): (r: seq<Day>)
    ensures forall d :: d in r ==> d.isForecast
  {
    if daily == [] then []
    else Forecast(daily[..|daily| - 1]) + (if daily[|daily| - 1].isForecast then [daily[|daily| - 1]] else [])
  }

  /** The two lists partition the days. */
  lemma {:induction false} Partition(daily: seq<Day>)
    ensures multiset(Historical(daily)) + multiset(Forecast(daily)) == multiset(daily)
  {
    if daily != [] {
      var init := daily[..|daily| - 1];
      var x := daily[|daily| - 1];
      Partition(init);
      PartitionStep(init, x, daily);
    }
  }

  /** One more day goes to exactly one of the two lists. */
  lemma PartitionStep(init: seq<Day>, x: Day, daily: seq<Day>)
    requires daily == init + [x]
    ensures multiset(Historical(daily)) + multiset(Forecast(daily)) == multiset(Historical(init)) + multiset(Forecast(init)) + multiset{x}
  {
    assert daily[..|daily| - 1] == init;
    if x.isForecast {
      assert Forecast(daily) == Forecast(init) + [x];
    } else {
      assert Historical(daily) == Historical(init) + [x];
    }
  }

  /** So the past and forecast day counts add up to the number of days. */
  lemma PartitionCount(daily: seq<Day>)
    ensures |Historical(daily)| + |Forecast(daily)| == |daily|
  {
    Partition(daily);
    assert |multiset(Historical(daily)) + multiset(Forecast(daily))| == |multiset(daily)|;
  }

  /** The present values of a column of days, in order. */
  datatype Column = Discharge | MeanFlow | MaxFlow

  function Field(d: Day, c: Column): Option<real>
  {
    match c
    case Discharge => d.discharge
    case MeanFlow => d.mean
    case MaxFlow => d.max
  }

  /** `[d[c] for d in days if d[c] is not None]`. */
  function Values(days: seq<Day>, c: Column): (xs: seq<real>)
    ensures |xs| <= |days|
  {
    if days == [] then []
    else
      var x := Field(days[|days| - 1], c);
      Values(days[..|days| - 1], c) + (if x.Some? then [x.value] else [])
  }

  /** The dates of the days whose value is present, aligned with `Values`. */
  function ValueDates(days: seq<Day>, c: Column): (ds: seq<string>)
    ensures |ds| == |Values(days, c)|
  {
    if days == [] then []
    else
      var d := days[|days| - 1];
      ValueDates(days[..|days| - 1], c) + (if Field(d, c).Some? then [d.date] else [])
  }

  /** The dates of all the days. */
  function Dates(days: seq<Day>): (ds: seq<string>)
    ensures |ds| == |days| && forall i :: 0 <= i < |days| ==> ds[i] == days[i].date
  {
    if days == [] then [] else Dates(days[..|days| - 1]) + [days[|days| - 1].date]
  }

  // ---------------------------------------------------------------------
  // Statistics and trend
  // ---------------------------------------------------------------------

  /** The result of `_calc_stats`. */
  datatype Stats = Stats(min: Option<real>, max: Option<real>, avg: Option<real>, std: Option<real>)

  /** `_calc_stats`: all four null for no values, all four present otherwise. */
  function StatsOf(xs: seq<real>, round: Round, sqrt: real -> real): (s: Stats)
    ensures xs == [] <==> s == Stats(None, None, None, None)
    ensures xs != [] ==> s.min.Some? && s.max.Some? && s.avg.Some? && s.std.Some?
  {
    if xs == [] then Stats(None, None, None, None)
    else Stats(Some(round(Min(xs), 2)), Some(round(Max(xs), 2)), Some(round(Sum(xs) / |xs| as real, 2)), Some(round(Std(xs, sqrt), 2)))
  }

  /** Before rounding, the mean of a non-empty list lies between its minimum and its maximum. */
  lemma StatsOrdered(xs: seq<real>)
    requires xs != []
    ensures Min(xs) <= Sum(xs) / |xs| as real <= Max(xs)
  {
    MeanBetween(xs, Min(xs), Max(xs));
  }

  /** The result of `_detect_trend`. */
  datatype Trend = Insufficient | Trend(direction: string, slope: real, pctPerDay: real)

  /** The direction of a percentage change per day. */
  function Direction(pct: real): (d: string)
    ensures d == "rising_fast" <==> pct > 5.0
    ensures d == "rising" <==> 1.0 < pct <= 5.0
    ensures d == "falling_fast" <==> pct < -5.0
    ensures d == "falling" <==> -5.0 <= pct < -1.0
    ensures d == "stable" <==> -1.0 <= pct <= 1.0
  {
    if pct > 5.0 then "rising_fast" else if pct > 1.0 then "rising" else if pct < -5.0 then "falling_fast"
    else if pct < -1.0 then "falling" else "stable"
  }

  /** `sum((i - x_mean) * (v - y_mean) for i, v in enumerate(values))` over the first `n` values. */
  function Covariance(values: seq<real>, n: nat, xMean: real, yMean: real): real
    requires n <= |values|
  {
    if n == 0 then 0.0 else Covariance(values, n - 1, xMean, yMean) + ((n - 1) as real - xMean) * (values[n - 1] - yMean)
  }

  /** `sum((i - x_mean) ** 2 for i in range(n))`. */
  function Spread(n: nat, xMean: real): real
  {
    if n == 0 then 0.0 else Spread(n - 1, xMean) + ((n - 1) as real - xMean) * ((n - 1) as real - xMean)
  }

  /** `slope`: the least-squares slope of the values against their positions, 0 when every position is the same. */
  function TrendSlope(values: seq<real>): real
    requires values != []
  {
    var n := |values|;
    var xMean := (n - 1) as real / 2.0;
    var yMean := Sum(values) / n as real;
    var den := Spread(n, xMean);
    if den != 0.0 then Covariance(values, n, xMean, yMean) / den else 0.0
  }

  /** `pct_per_day`: the slope as a percentage of the mean, 0 when the mean is not positive. */
  function PctPerDay(values: seq<real>): real
    requires values != []
  {
    var yMean := Sum(values) / |values| as real;
    if yMean > 0.0 then (TrendSlope(values) / yMean) * 100.0 else 0.0
  }

  /**
   * `_detect_trend`: fewer than three values are too few; otherwise the
   * direction classifies the percentage change per day, and the slope and
   * that percentage are reported rounded to two places.
   */
  function DetectTrend(values: seq<real>, round: Round): (t: Trend)
    ensures |values| < 3 <==> t.Insufficient?
    ensures |values| >= 3 ==> && t.direction == Direction(PctPerDay(values))
                              && t.slope == round(TrendSlope(values), 2)
                              && t.pctPerDay == round(PctPerDay(values), 2)
  {
    if |values| < 3 then Insufficient
    else Trend(Direction(PctPerDay(values)), round(TrendSlope(values), 2), round(PctPerDay(values), 2))
  }

  /** The values lie on the line `a + b * i`. */
  ghost predicate OnLine(values: seq<real>, a: real, b: real)
  {
    forall i :: 0 <= i < |values| ==> values[i] == a + b * i as real
  }

  /** The values on a line add up to `n * a + b * n * (n - 1) / 2`. */
  lemma {:induction false} SumOnLine(values: seq<real>, a: real, b: real)
    requires OnLine(values, a, b)
    ensures Sum(values) == |values| as real * a + b * (|values| as real * (|values| as real - 1.0)) / 2.0
  {
    if values != [] {
      var k := |values| - 1;
      var init := values[..k];
      assert OnLine(init, a, b) by {
        forall i | 0 <= i < |init| ensures init[i] == a + b * i as real {
          assert init[i] == values[i];
        }
      }
      SumOnLine(init, a, b);
      assert values[k] == a + b * k as real;
      var kr := k as real;
      assert kr * a + b * (kr * (kr - 1.0)) / 2.0 + (a + b * kr)
          == (kr + 1.0) * a + b * ((kr + 1.0) * kr) / 2.0;
    }
  }

  /** On a line of slope `b`, centred at its mean, each product term is `b` times the squared term. */
  lemma {:induction false} CovarianceOnLine(values: seq<real>, n: nat, xMean: real, a: real, b: real)
    requires n <= |values| && OnLine(values, a, b)
    ensures Covariance(values, n, xMean, a + b * xMean) == b * Spread(n, xMean)
  {
    if n > 0 {
      CovarianceOnLine(values, n - 1, xMean, a, b);
      var d := (n - 1) as real - xMean;
      assert values[n - 1] - (a + b * xMean) == b * d;
      assert d * (b * d) == b * (d * d);
    }
  }

  /** The squared terms add up to at least the first one. */
  lemma {:induction false} SpreadAtLeastFirst(n: nat, xMean: real)
    requires n >= 1
    ensures Spread(n, xMean) >= xMean * xMean
  {
    if n > 1 {
      SpreadAtLeastFirst(n - 1, xMean);
      var d := (n - 1) as real - xMean;
      assert d * d >= 0.0;
    }
  }

  /** Values on the line `a + b * i` have least-squares slope exactly `b`. */
  lemma LinearSlope(values: seq<real>, a: real, b: real)
    requires |values| >= 2 && OnLine(values, a, b)
    ensures TrendSlope(values) == b
  {
    var n := |values|;
    var nr := n as real;
    var xMean := (n - 1) as real / 2.0;
    SumOnLine(values, a, b);
    assert Sum(values) / nr == a + b * xMean by {
      assert Sum(values) == nr * (a + b * xMean);
    }
    CovarianceOnLine(values, n, xMean, a, b);
    SpreadAtLeastFirst(n, xMean);
    assert xMean > 0.0;
    assert xMean * xMean > 0.0;
  }

  /** A flat series of at least three values is stable, with slope and percentage 0 before rounding. */
  lemma FlatIsStable(values: seq<real>, a: real, round: Round)
    requires |values| >= 3 && OnLine(values, a, 0.0)
    ensures TrendSlope(values) == 0.0 && PctPerDay(values) == 0.0
    ensures DetectTrend(values, round).direction == "stable"
  {
    LinearSlope(values, a, 0.0);
  }

  /** `hist_vals[-7:] if len(hist_vals) >= 7 else hist_vals`: the last seven values, or all of them. */
  function LastSeven(xs: seq<real>): (r: seq<real>)
    ensures |r| == if |xs| >= 7 then 7 else |xs|
    ensures xs == xs[..|xs| - |r|] + r
  {
    if |xs| >= 7 then xs[|xs| - 7..] else xs
  }

  // ---------------------------------------------------------------------
  // Spikes
  // ---------------------------------------------------------------------

  datatype Spike = Spike(date: string, from: real, to: real, pctChange: real)

  function Abs(x: real): real
  {
    if x < 0.0 then -x else x
  }

  /** A day-over-day change of more than 30% from a positive value. */
  predicate IsSpike(prev: real, curr: real)
  {
    prev > 0.0 && Abs((curr - prev) / prev * 100.0) > 30.0
  }

  /** The change into the `i`-th value is a spike. */
  predicate SpikeIndex(vals: seq<real>, i: nat)
  {
    1 <= i < |vals| && IsSpike(vals[i - 1], vals[i])
  }

  function SpikeAt(vals: seq<real>, dates: seq<string>, i: nat, round: Round): Spike
    requires SpikeIndex(vals, i) && |vals| <= |dates|
  {
    Spike(dates[i], vals[i - 1], vals[i], round((vals[i] - vals[i - 1]) / vals[i - 1] * 100.0, 1))
  }

  /** The spikes among the first `n` values, the `i`-th dated `dates[i]`. */
  function SpikesUpTo(vals: seq<real>, dates: seq<string>, n: nat, round: Round): seq<Spike>
    requires n <= |vals| <= |dates|
  {
    if n < 2 then []
    else SpikesUpTo(vals, dates, n - 1, round) + (if SpikeIndex(vals, n - 1) then [SpikeAt(vals, dates, n - 1, round)] else [])
  }

  /** The spike loop. */
  method DetectSpikes(vals: seq<real>, dates: seq<string>, round: Round) returns (spikes: seq<Spike>)
    requires |vals| <= |dates|
    ensures spikes == SpikesUpTo(vals, dates, |vals|, round)
  {
    spikes := [];
    var i := 1;
    while i < |vals|
      invariant 1 <= i && (i <= |vals| || |vals| == 0)
      invariant spikes == SpikesUpTo(vals, dates, if |vals| == 0 then 0 else i, round)
    {
      var prev := vals[i - 1];
      var curr := vals[i];
      if prev != 0.0 && prev > 0.0 {
        var pct := ((curr - prev) / prev) * 100.0;
        if Abs(pct) > 30.0 {
          spikes := spikes + [Spike(dates[i], prev, curr, round(pct, 1))];
        }
      }
      i := i + 1;
    }
  }

  /** The indices that are spikes. */
  function SpikeIndices(vals: seq<real>, n: nat): set<nat>
    requires n <= |vals|
  {
    set i: nat | i < n && SpikeIndex(vals, i)
  }

  /** The list counts every index whose change from a positive previous value exceeds 30%. */
  lemma {:induction false} SpikesCount(vals: seq<real>, dates: seq<string>, n: nat, round: Round)
    requires n <= |vals| <= |dates|
    ensures |SpikesUpTo(vals, dates, n, round)| == |SpikeIndices(vals, n)|
  {
    if n >= 2 {
      SpikesCount(vals, dates, n - 1, round);
      var k := n - 1;
      if SpikeIndex(vals, k) {
        assert SpikeIndices(vals, n) == SpikeIndices(vals, k) + {k};
        assert k !in SpikeIndices(vals, k);
      } else {
        assert SpikeIndices(vals, n) == SpikeIndices(vals, k);
      }
    } else {
      assert SpikeIndices(vals, n) == {};
    }
  }

  /** Every spike among the first `n` values is recorded. */
  lemma {:induction false} SpikesComplete(vals: seq<real>, dates: seq<string>, n: nat, round: Round, i: nat)
    requires n <= |vals| <= |dates| && i < n && SpikeIndex(vals, i)
    ensures SpikeAt(vals, dates, i, round) in SpikesUpTo(vals, dates, n, round)
  {
    if i < n - 1 {
      SpikesComplete(vals, dates, n - 1, round, i);
    }
  }

  /** Every recorded spike comes from an index that is a spike. */
  lemma {:induction false} SpikesSound(vals: seq<real>, dates: seq<string>, n: nat, round: Round, s: Spike)
    requires n <= |vals| <= |dates| && s in SpikesUpTo(vals, dates, n, round)
    ensures exists i: nat :: i < n && SpikeIndex(vals, i) && s == SpikeAt(vals, dates, i, round)
  {
    if s in SpikesUpTo(vals, dates, n - 1, round) {
      SpikesSound(vals, dates, n - 1, round, s);
    } else {
      assert SpikeIndex(vals, n - 1) && s == SpikeAt(vals, dates, n - 1, round);
    }
  }

  /** As written: the `i`-th value is dated by the `i`-th past day, counting the days without a discharge. */
  function SpikesAsWritten(historical: seq<Day>, round: Round): seq<Spike>
  {
    SpikesUpTo(Values(historical, Discharge), Dates(historical), |Values(historical, Discharge)|, round)
  }

  /** Corrected: the `i`-th value is dated by the day it was read on. */
  function Spikes(historical: seq<Day>, round: Round): seq<Spike>
  {
    SpikesUpTo(Values(historical, Discharge), ValueDates(historical, Discharge), |Values(historical, Discharge)|, round)
  }

  /** The corrected list dates each spike by the day of its `to` reading. */
  lemma {:induction false} ValueDatesAligned(days: seq<Day>, c: Column, i: nat)
    requires i < |Values(days, c)|
    ensures exists j :: 0 <= j < |days| && Field(days[j], c) == Some(Values(days, c)[i]) && days[j].date == ValueDates(days, c)[i]
  {
    var init := days[..|days| - 1];
    if i < |Values(init, c)| {
      ValueDatesAligned(init, c, i);
      var j :| 0 <= j < |init| && Field(init[j], c) == Some(Values(init, c)[i]) && init[j].date == ValueDates(init, c)[i];
      assert days[j] == init[j];
    } else {
      assert days[|days| - 1].date == ValueDates(days, c)[i];
    }
  }

  /** Each corrected spike is dated by a day whose discharge is the spike's `to` value. */
  lemma SpikesDated(historical: seq<Day>, round: Round, s: Spike)
    requires s in Spikes(historical, round)
    ensures exists j :: 0 <= j < |historical| && historical[j].date == s.date && historical[j].discharge == Some(s.to)
  {
    var vals := Values(historical, Discharge);
    SpikesSound(vals, ValueDates(historical, Discharge), |vals|, round, s);
    var i: nat :| i < |vals| && SpikeIndex(vals, i) && s == SpikeAt(vals, ValueDates(historical, Discharge), i, round);
    ValueDatesAligned(historical, Discharge, i);
  }

  /** As written, a past day without a discharge shifts the dates: the spike from 100 to 200 is dated by the day before its reading. */
  lemma SpikeDateShifted(round: Round)
    ensures var h := [Day("d0", false, None, None, None, None), Day("d1", false, Some(100.0), None, None, None),
                      Day("d2", false, Some(200.0), None, None, None)];
            SpikesAsWritten(h, round) == [Spike("d1", 100.0, 200.0, round(100.0, 1))] &&
            Spikes(h, round) == [Spike("d2", 100.0, 200.0, round(100.0, 1))]
  {
    var h := [Day("d0", false, None, None, None, None), Day("d1", false, Some(100.0), None, None, None),
              Day("d2", false, Some(200.0), None, None, None)];
    assert h[..2][..1] == [h[0]] && h[..1][..0] == [] && h[..2] == [h[0], h[1]];
    assert Values(h, Discharge) == [100.0, 200.0];
    assert ValueDates(h, Discharge) == ["d1", "d2"];
    assert Dates(h) == ["d0", "d1", "d2"];
    assert SpikeIndex([100.0, 200.0], 1);
  }

  // ---------------------------------------------------------------------
  // Forecast risk days
  // ---------------------------------------------------------------------

  datatype RiskDay = RiskDay(date: string, projectedMax: real, vsPeakPct: real)

  /** A forecast day whose projected maximum exceeds 120% of a positive historical peak. */
  predicate IsRiskDay(d: Day, peak: real)
  {
    d.max.Some? && peak > 0.0 && d.max.value > peak * 1.2
  }

  function RiskDayOf(d: Day, peak: real, round: Round): RiskDay
    requires IsRiskDay(d, peak)
  {
    RiskDay(d.date, round(d.max.value, 2), round((d.max.value - peak) / peak * 100.0, 1))
  }

  function RiskDays(forecast: seq<Day>, peak: real, round: Round): seq<RiskDay>
  {
    if forecast == [] then []
    else
      var d := forecast[|forecast| - 1];
      RiskDays(forecast[..|forecast| - 1], peak, round) + (if IsRiskDay(d, peak) then [RiskDayOf(d, peak, round)] else [])
  }

  /** The forecast-risk loop; `fmax and` is subsumed by `fmax > peak * 1.2 > 0`. */
  method DetectRiskDays(forecast: seq<Day>, peak: real, round: Round) returns (days: seq<RiskDay>)
    ensures days == RiskDays(forecast, peak, round)
  {
    days := [];
    for i := 0 to |forecast|
      invariant days == RiskDays(forecast[..i], peak, round)
    {
      assert forecast[..i + 1][..i] == forecast[..i];
      var d := forecast[i];
      var fmax := d.max;
      if fmax.Some? && fmax.value != 0.0 && peak > 0.0 && fmax.value > peak * 1.2 {
        days := days + [RiskDay(d.date, round(fmax.value, 2), round((fmax.value - peak) / peak * 100.0, 1))];
      }
    }
    assert forecast[..|forecast|] == forecast;
  }

  /** A forecast day is recorded exactly when it is a risk day, and every recorded day is one. */
  lemma {:induction false} RiskDaysExact(forecast: seq<Day>, peak: real, round: Round)
    ensures forall d :: d in forecast && IsRiskDay(d, peak) ==> RiskDayOf(d, peak, round) in RiskDays(forecast, peak, round)
    ensures forall r :: r in RiskDays(forecast, peak, round) ==> exists d :: d in forecast && IsRiskDay(d, peak) && r == RiskDayOf(d, peak, round)
    ensures |RiskDays(forecast, peak, round)| <= |forecast|
  {
    if forecast != [] {
      var init := forecast[..|forecast| - 1];
      RiskDaysExact(init, peak, round);
      assert forecast == init + [forecast[|forecast| - 1]];
    }
  }

  /** `hist_peak = max(hist_vals) if hist_vals else 0`. */
  function Peak(vals: seq<real>): real
  {
    if vals == [] then 0.0 else Max(vals)
  }

  // ---------------------------------------------------------------------
  // Events and the result
  // ---------------------------------------------------------------------

  /** The mean, max and min a forecast entry carries. */
  datatype Projection = Projection(mean: Option<real>, max: Option<real>, min: Option<real>)

  datatype Event = Event(date: string, kind: string, discharge: Option<real>, projection: Option<Projection>)

  function EventOf(d: Day): (e: Event)
    ensures e.projection.Some? <==> d.isForecast
  {
    Event(d.date, if d.isForecast then "forecast" else "historical", d.discharge,
          if d.isForecast then Some(Projection(d.mean, d.max, d.min)) else None)
  }

  /** The event loop: one entry per day, in order. */
  method Condense(daily: seq<Day>) returns (events: seq<Event>)
    ensures |events| == |daily|
    ensures forall i :: 0 <= i < |daily| ==> events[i] == EventOf(daily[i])
  {
    events := [];
    for i := 0 to |daily|
      invariant |events| == i
      invariant forall j :: 0 <= j < i ==> events[j] == EventOf(daily[j])
    {
      var d := daily[i];
      var kind := if d.isForecast then "forecast" else "historical";
      var projection: Option<Projection> := None;
      if d.isForecast {
        projection := Some(Projection(d.mean, d.max, d.min));
      }
      events := events + [Event(d.date, kind, d.discharge, projection)];
    }
  }

  datatype Summary = Summary(
    location: string, totalDays: nat, historicalDays: nat, historical: Stats,
    forecastDays: nat, meanStats: Stats, maxStats: Stats, trend: Trend,
    spikesDetected: nat, spikes: seq<Spike>, forecastRiskDays: nat, forecastRisks: seq<RiskDay>)

  /** The result of `preprocess`: the short report for an error or no days, or the summary and the events. */
  datatype Output = NoData(location: string, prompt: string) | Report(summary: Summary, events: seq<Event>)

  /** The `total_days` of the summary: 0 in the short report. */
  function TotalDays(o: Output): nat
  {
    if o.NoData? then 0 else o.summary.totalDays
  }

  /** The `events` list: empty in the short report. */
  function EventList(o: Output): seq<Event>
  {
    if o.NoData? then [] else o.events
  }

  /** `flood_data.get("error")` is true: present and non-empty. */
  predicate HasError(f: FloodData)
  {
    f.error.Some? && f.error.value != ""
  }

  function Take<T>(s: seq<T>, n: nat): (r: seq<T>)
    ensures |r| <= n && |r| <= |s| && r == s[..|r|]
    ensures |s| <= n ==> r == s
  {
    if |s| <= n then s else s[..n]
  }

  /**
   * `preprocess`: an error or no days give the short report; otherwise the
   * summary counts the days of each kind, states the statistics and the trend
   * of the last seven readings, counts every spike and risk day but keeps at
   * most five of each, and the events follow the days one each.
   */
  method Preprocess(f: FloodData, location: string, round: Round, sqrt: real -> real) returns (r: Output)
    ensures HasError(f) || f.daily == [] <==> r.NoData?
    ensures r.NoData? ==> r == NoData(location, "No flood/river discharge data available for " + location + ".")
    ensures TotalDays(r) == |EventList(r)| == if r.NoData? then 0 else |f.daily|
    ensures r.Report? ==> forall i :: 0 <= i < |f.daily| ==> r.events[i] == EventOf(f.daily[i])
    ensures r.Report? ==> r.summary.historicalDays == |Historical(f.daily)| && r.summary.forecastDays == |Forecast(f.daily)|
    ensures r.Report? ==> r.summary.historical == StatsOf(Values(Historical(f.daily), Discharge), round, sqrt)
    ensures r.Report? ==> r.summary.meanStats == StatsOf(Values(Forecast(f.daily), MeanFlow), round, sqrt)
    ensures r.Report? ==> r.summary.maxStats == StatsOf(Values(Forecast(f.daily), MaxFlow), round, sqrt)
    ensures r.Report? ==> r.summary.trend == DetectTrend(LastSeven(Values(Historical(f.daily), Discharge)), round)
    ensures r.Report? ==> r.summary.spikesDetected == |Spikes(Historical(f.daily), round)|
    ensures r.Report? ==> r.summary.spikes == Take(Spikes(Historical(f.daily), round), 5)
    ensures r.Report? ==>
              var peak := Peak(Values(Historical(f.daily), Discharge));
              r.summary.forecastRiskDays == |RiskDays(Forecast(f.daily), peak, round)| &&
              r.summary.forecastRisks == Take(RiskDays(Forecast(f.daily), peak, round), 5)
  {
    if (f.error.Some? && f.error.value != "") || f.daily == [] {
      return NoData(location, "No flood/river discharge data available for " + location + ".");
    }
    var daily := f.daily;
    var historical := Historical(daily);
    var forecast := Forecast(daily);
    var histVals := Values(historical, Discharge);
    var trend := DetectTrend(LastSeven(histVals), round);
    var spikes := DetectSpikes(histVals, ValueDates(historical, Discharge), round);
    var peak := if histVals == [] then 0.0 else Max(histVals);
    var riskDays := DetectRiskDays(forecast, peak, round);
    var summary := Summary(
      location, |daily|, |historical|, StatsOf(histVals, round, sqrt),
      |forecast|, StatsOf(Values(forecast, MeanFlow), round, sqrt), StatsOf(Values(forecast, MaxFlow), round, sqrt), trend,
      |spikes|, Take(spikes, 5), |riskDays|, Take(riskDays, 5));
    var events := Condense(daily);
    r := Report(summary, events);
  }

  // ---------------------------------------------------------------------
  // The trend line of the prompt
  // ---------------------------------------------------------------------

  const KeyError: string := "KeyError"

  /**
   * `_build_prompt` as written reads `t['slope_m3s_per_day']` and
   * `t['pct_change_per_day']`, which the insufficient-data trend lacks.
   */
  function PromptTrendAsWritten(t: Trend): (r: Result<(real, real)>)
    ensures r.Failure? <==> t.Insufficient?
    ensures t.Trend? ==> r == Success((t.slope, t.pctPerDay))
  {
    if t.Insufficient? then Failure(KeyError) else Success((t.slope, t.pctPerDay))
  }

  /** The trend line as intended: the insufficient-data trend is reported with the slope 0 it carries. */
  function PromptTrend(t: Trend): (r: (real, real))
    ensures t.Trend? ==> r == (t.slope, t.pctPerDay)
    ensures t.Insufficient? ==> r == (0.0, 0.0)
  {
    if t.Insufficient? then (0.0, 0.0) else (t.slope, t.pctPerDay)
  }

  /** As written, a report whose past days hold fewer than three readings raises in `_build_prompt`. */
  lemma ShortHistoryRaises(f: FloodData, round: Round)
    requires !HasError(f) && f.daily != []
    ensures var t := DetectTrend(LastSeven(Values(Historical(f.daily), Discharge)), round);
            PromptTrendAsWritten(t).Failure? <==> |Values(Historical(f.daily), Discharge)| < 3
  {
  }

  /** A single past day with a reading: the trend has too few values and the prompt as written raises. */
  lemma OneDayRaises(round: Round)
    ensures var f := FloodData(None, [Day("2024-01-01", false, Some(100.0), None, None, None)]);
            && !HasError(f) && f.daily != []
            && PromptTrendAsWritten(DetectTrend(LastSeven(Values(Historical(f.daily), Discharge)), round)).Failure?
  {
    var d := Day("2024-01-01", false, Some(100.0), None, None, None);
    assert Historical([d]) == [d];
    assert Values([d], Discharge) == [100.0];
  }

  /** The intended trend line is defined for every trend the report can hold, the short ones included. */
  lemma ShortHistoryReported(f: FloodData, round: Round)
    requires !HasError(f) && f.daily != [] && |Values(Historical(f.daily), Discharge)| < 3
    ensures PromptTrend(DetectTrend(LastSeven(Values(Historical(f.daily), Discharge)), round)) == (0.0, 0.0)
  {
  }
}
