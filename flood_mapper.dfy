/**
 * `flood_mapper.py`: a preprocessed flood summary is scored from four of
 * its fields and the score banded into a risk level, which is then written
 * into the coordinate map under the location's key.
 */
module FloodMapper {
  import opened Wrappers
  import opened Assoc
  import opened Risk

  /**
   * The fields of the summary the score reads. `None` is a missing key;
   * `histMax` is also `None` when the historical maximum is null.
   */
  datatype Summary = Summary(histMax: Option<real>, trend: Option<string>, riskDays: Option<int>, spikes: Option<int>)

  /** Points for the historical peak discharge, a missing or null peak counting as 0. */
  function PeakPoints(s: Summary): (p: int)
    ensures 0 <= p <= 4
  {
    var h := s.histMax.GetOr(0.0);
    if h >= 5000.0 then 4 else if h >= 2000.0 then 3 else if h >= 500.0 then 2 else if h >= 100.0 then 1 else 0
  }

  /** Points for the 7-day trend, a missing direction counting as "stable"; any other direction costs a point. */
  function TrendPoints(s: Summary): (p: int)
    ensures -1 <= p <= 3
  {
    var t := s.trend.GetOr("stable");
    if t == "rising_fast" then 3 else if t == "rising" then 2 else if t == "stable" then 0 else -1
  }

  function DayPoints(s: Summary): (p: int)
    ensures 0 <= p <= 3
  {
    var d := s.riskDays.GetOr(0);
    if d >= 10 then 3 else if d >= 5 then 2 else if d >= 1 then 1 else 0
  }

  function SpikePoints(s: Summary): (p: int)
    ensures 0 <= p <= 2
  {
    var n := s.spikes.GetOr(0);
    if n >= 5 then 2 else if n >= 2 then 1 else 0
  }

  /** The accumulated `score`: between -1 and 12, and 0 for a summary with none of the keys. */
  function Score(s: Summary): (r: int)
    ensures -1 <= r <= 12
    ensures s == Summary(None, None, None, None) ==> r == 0
  {
    PeakPoints(s) + TrendPoints(s) + DayPoints(s) + SpikePoints(s)
  }

  /** The band of a score. */
  function Band(score: int): (l: Level)
    ensures l == Critical <==> score >= 9
    ensures l == High <==> 6 <= score < 9
    ensures l == Medium <==> 3 <= score < 6
    ensures l == Low <==> score < 3
  {
    if score >= 9 then Critical else if score >= 6 then High else if score >= 3 then Medium else Low
  }

  /** `discharge_to_risk`: the level of the summary's score, by the thresholds 9, 6 and 3. */
  function DischargeToRisk(s: Summary): (l: Level)
    ensures l == Critical <==> Score(s) >= 9
    ensures l == High <==> 6 <= Score(s) < 9
    ensures l == Medium <==> 3 <= Score(s) < 6
    ensures l == Low <==> Score(s) < 3
  {
    Band(Score(s))
  }

  /** The score lies between -1 and 12, and is negative only through the trend. */
  lemma ScoreBounds(s: Summary)
    ensures -1 <= Score(s) <= 12
    ensures Score(s) < 0 ==> s.trend.GetOr("stable") !in {"rising_fast", "rising", "stable"}
  {
  }

  /** An empty summary is "Low". */
  lemma EmptyIsLow()
    ensures DischargeToRisk(Summary(None, None, None, None)) == Low
  {
  }

  /** A higher band never comes from a lower score. */
  lemma BandMonotone(a: int, b: int)
    requires a <= b
    ensures Rank(Band(a)) <= Rank(Band(b))
  {
  }

  /** Raising the historical peak never lowers the risk. */
  lemma PeakMonotone(s: Summary, h: real)
    requires s.histMax.GetOr(0.0) <= h
    ensures Rank(DischargeToRisk(s)) <= Rank(DischargeToRisk(s.(histMax := Some(h))))
  {
    BandMonotone(Score(s), Score(s.(histMax := Some(h))));
  }

  /** More forecast risk days never lower the risk. */
  lemma DaysMonotone(s: Summary, d: int)
    requires s.riskDays.GetOr(0) <= d
    ensures Rank(DischargeToRisk(s)) <= Rank(DischargeToRisk(s.(riskDays := Some(d))))
  {
    BandMonotone(Score(s), Score(s.(riskDays := Some(d))));
  }

  /** More spikes never lower the risk. */
  lemma SpikesMonotone(s: Summary, n: int)
    requires s.spikes.GetOr(0) <= n
    ensures Rank(DischargeToRisk(s)) <= Rank(DischargeToRisk(s.(spikes := Some(n))))
  {
    BandMonotone(Score(s), Score(s.(spikes := Some(n))));
  }

  /**
   * `generate_map`: the map loaded from the output file gets the level of
   * this summary under the location's key when both coordinates are
   * present. Reading and writing the file are left out; `fmt` is the key
   * format `f"{round(lat, 4)},{round(lng, 4)}"`.
   */
  function GenerateMap(loaded: Assoc<string, string>, s: Summary, lat: Option<real>, lng: Option<real>,
                       fmt: (real, real) -> string): (m: Assoc<string, string>)
    ensures lat.Some? && lng.Some? ==> Get(m, fmt(lat.value, lng.value)) == Some(Name(DischargeToRisk(s)))
    ensures lat.Some? && lng.Some? ==> forall k :: k != fmt(lat.value, lng.value) ==> Get(m, k) == Get(loaded, k)
    ensures lat.None? || lng.None? ==> m == loaded
  {
    if lat.Some? && lng.Some? then Put(loaded, fmt(lat.value, lng.value), Name(DischargeToRisk(s))) else loaded
  }
}
