/**
 * `earthquake_mapper.py`: a magnitude becomes a risk level, and a list of
 * events becomes a map from rounded coordinates to the highest level seen
 * there. The formatting of the `"lat,lng"` key is a parameter of the model.
 */
module QuakeMapper {
  import opened Wrappers
  import opened Assoc
  import opened Risk

  /** `mag_to_risk`. */
  function MagToRisk(mag: real): (l: Level)
    ensures l == Critical <==> mag >= 6.0
    ensures l == High <==> 5.0 <= mag < 6.0
    ensures l == Medium <==> 4.0 <= mag < 5.0
    ensures l == Low <==> mag < 4.0
  {
    if mag >= 6.0 then Critical
    else if mag >= 5.0 then High
    else if mag >= 4.0 then Medium
    else Low
  }

  /** A larger magnitude never gives a lower rank. */
  lemma MagToRiskMonotone(m1: real, m2: real)
    requires m1 <= m2
    ensures Rank(MagToRisk(m1)) <= Rank(MagToRisk(m2))
  {
  }

  /** A condensed event; `None` is a missing or null field. */
  datatype Event = Event(lat: Option<real>, lng: Option<real>, mag: Option<real>)

  /** The key of a coordinate pair, `f"{round(lat, 4)},{round(lng, 4)}"`. */
  type KeyFormat = (real, real) -> string

  predicate Complete(e: Event)
  {
    e.lat.Some? && e.lng.Some? && e.mag.Some?
  }

  function KeyOf(e: Event, fmt: KeyFormat): string
    requires Complete(e)
  {
    fmt(e.lat.value, e.lng.value)
  }

  function LevelOf(e: Event): Level
    requires Complete(e)
  {
    MagToRisk(e.mag.value)
  }

  /** The map after one more event: a complete event writes its level unless a higher one is already stored. */
  function Step(m: Assoc<string, Level>, e: Event, fmt: KeyFormat): Assoc<string, Level>
  {
    if !Complete(e) then m
    else
      var key := KeyOf(e, fmt);
      var level := LevelOf(e);
      if HasKey(m, key) then
        if Rank(level) > Rank(Get(m, key).value) then Put(m, key, level) else m
      else Put(m, key, level)
  }

  /** The coordinate map built from `events`, in order. */
  function MapOf(events: seq<Event>, fmt: KeyFormat): Assoc<string, Level>
  {
    if events == [] then [] else Step(MapOf(events[..|events| - 1], fmt), events[|events| - 1], fmt)
  }

  /** The loop of `generate_map`; writing the JSON file is left out. */
  method GenerateMap(events: seq<Event>, fmt: KeyFormat) returns (coordMap: Assoc<string, Level>)
    ensures coordMap == MapOf(events, fmt)
  {
    coordMap := [];
    for i := 0 to |events|
      invariant coordMap == MapOf(events[..i], fmt)
    {
      assert events[..i + 1][..i] == events[..i];
      var e := events[i];
      if e.lat.None? || e.lng.None? || e.mag.None? {
        continue;
      }
      var key := fmt(e.lat.value, e.lng.value);
      var level := MagToRisk(e.mag.value);
      if HasKey(coordMap, key) {
        if Rank(level) > Rank(Get(coordMap, key).value) {
          coordMap := Put(coordMap, key, level);
        }
      } else {
        coordMap := Put(coordMap, key, level);
      }
    }
    assert events[..|events|] == events;
  }

  /** Event `e` is complete and falls on key `k`. */
  predicate AtKey(e: Event, fmt: KeyFormat, k: string)
  {
    Complete(e) && KeyOf(e, fmt) == k
  }

  /** Some complete event of `events` has key `k`. */
  ghost predicate Seen(events: seq<Event>, fmt: KeyFormat, k: string)
  {
    exists e :: e in events && AtKey(e, fmt, k)
  }

  /** Level `l` is the highest level among the complete events of `events` with key `k`. */
  ghost predicate Highest(events: seq<Event>, fmt: KeyFormat, k: string, l: Level)
  {
    && (exists e :: e in events && AtKey(e, fmt, k) && LevelOf(e) == l)
    && (forall e :: e in events && AtKey(e, fmt, k) ==> Rank(LevelOf(e)) <= Rank(l))
  }

  /** The keys of the map are exactly the keys of complete events. */
  lemma {:induction false} MapKeys(events: seq<Event>, fmt: KeyFormat, k: string)
    ensures HasKey(MapOf(events, fmt), k) <==> Seen(events, fmt, k)
  {
    if events != [] {
      var init, e := events[..|events| - 1], events[|events| - 1];
      assert events == init + [e];
      MapKeys(init, fmt, k);
      var m := MapOf(init, fmt);
      assert MapOf(events, fmt) == Step(m, e, fmt);
      if Complete(e) {
        PutKeys(m, KeyOf(e, fmt), LevelOf(e), k);
      }
      if AtKey(e, fmt, k) {
        assert e in events;
      }
      if Seen(events, fmt, k) && !AtKey(e, fmt, k) {
        var x :| x in events && AtKey(x, fmt, k);
        assert x in init;
      }
      if Seen(init, fmt, k) {
        var x :| x in init && AtKey(x, fmt, k);
        assert x in events;
      }
    }
  }

  /** Each key of the map holds the highest level among the complete events at that key. */
  lemma {:induction false} MapHighest(events: seq<Event>, fmt: KeyFormat, k: string)
    requires HasKey(MapOf(events, fmt), k)
    ensures Highest(events, fmt, k, Get(MapOf(events, fmt), k).value)
  {
    var init, e := events[..|events| - 1], events[|events| - 1];
    assert events == init + [e];
    var m := MapOf(init, fmt);
    MapKeys(init, fmt, k);
    if HasKey(m, k) {
      MapHighest(init, fmt, k);
    }
    var l := Get(MapOf(events, fmt), k).value;
    if AtKey(e, fmt, k) {
      if HasKey(m, k) {
        var l0 := Get(m, k).value;
        assert l == (if Rank(LevelOf(e)) > Rank(l0) then LevelOf(e) else l0);
      } else {
        assert l == LevelOf(e);
        assert forall x :: x in init ==> !AtKey(x, fmt, k);
        assert forall x :: x in events && AtKey(x, fmt, k) ==> x == e;
      }
    } else {
      assert MapOf(events, fmt) == Step(m, e, fmt);
      if Complete(e) {
        assert Get(MapOf(events, fmt), k) == Get(m, k);
      }
    }
  }

  /** At most one level is the highest at a key. */
  lemma HighestUnique(events: seq<Event>, fmt: KeyFormat, k: string, l1: Level, l2: Level)
    requires Highest(events, fmt, k, l1) && Highest(events, fmt, k, l2)
    ensures l1 == l2
  {
    RankInjective(l1, l2);
  }

  /** The level stored at every key does not depend on the order of the events. */
  lemma OrderIndependent(events: seq<Event>, shuffled: seq<Event>, fmt: KeyFormat, k: string)
    requires multiset(events) == multiset(shuffled)
    ensures Get(MapOf(events, fmt), k) == Get(MapOf(shuffled, fmt), k)
  {
    assert forall e :: e in events <==> e in shuffled by {
      forall e
        ensures e in events <==> e in shuffled
      {
        assert e in events <==> e in multiset(events);
        assert e in shuffled <==> e in multiset(shuffled);
      }
    }
    MapKeys(events, fmt, k);
    MapKeys(shuffled, fmt, k);
    if HasKey(MapOf(events, fmt), k) {
      MapHighest(events, fmt, k);
      MapHighest(shuffled, fmt, k);
      HighestUnique(events, fmt, k, Get(MapOf(events, fmt), k).value, Get(MapOf(shuffled, fmt), k).value);
    }
  }

  /** The map is a dictionary: its keys are distinct. */
  lemma {:induction false} MapUnique(events: seq<Event>, fmt: KeyFormat)
    ensures UniqueKeys(MapOf(events, fmt))
  {
    if events != [] {
      var init, e := events[..|events| - 1], events[|events| - 1];
      MapUnique(init, fmt);
      if Complete(e) {
        PutUnique(MapOf(init, fmt), KeyOf(e, fmt), LevelOf(e));
      }
    }
  }
}
