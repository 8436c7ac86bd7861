/**
 * `context_manager.py`: the shared store of threat predictions every
 * calamity module writes to. The store's file is modelled as the in-memory
 * `ThreatContext`: its list of threat entries and its `generated_at` stamp.
 * Each entry is an ordered JSON object; the current time is a parameter.
 */
module Context {
  import opened Wrappers
  import opened Assoc

  /** A JSON value: a string, null, an object, or any other value. */
  datatype Value = Str(s: string) | Null | Obj(fields: seq<(string, Value)>) | Other(id: int)

  type Entry = Assoc<string, Value>

  /** The prediction fields every entry carries, in order. */
  const Standard: seq<string> := ["risk_level", "risk_score", "confidence", "summary", "key_factors", "pattern_detected", "recommendation"]

  /** The prediction keys `save_threat` does not copy. */
  const SourceSkip: set<string> := {"risk_level", "risk_score", "confidence", "summary", "key_factors", "pattern_detected",
                                    "recommendation", "raw_response", "model", "error"}

  /** The same keys and the identity of the entry, which a prediction must not overwrite. */
  const Skip: set<string> := SourceSkip + {"type", "location"}

  /** `t["type"] == threat_type and t["location"] == location`. */
  predicate Matches(t: Entry, threatType: string, location: string)
  {
    Get(t, "type") == Some(Str(threatType)) && Get(t, "location") == Some(Str(location))
  }

  /** `[t for t in threats if not Matches(t)]`. */
  function Dedup(ts: seq<Entry>, threatType: string, location: string): (r: seq<Entry>)
    ensures |r| <= |ts|
  {
    if ts == [] then []
    else (if Matches(ts[0], threatType, location) then [] else [ts[0]]) + Dedup(ts[1..], threatType, location)
  }

  /** The filter keeps exactly the non-matching threats. */
  lemma {:induction false} DedupMembers(ts: seq<Entry>, threatType: string, location: string, t: Entry)
    ensures t in Dedup(ts, threatType, location) <==> t in ts && !Matches(t, threatType, location)
  {
    if ts != [] {
      DedupMembers(ts[1..], threatType, location, t);
      assert ts == [ts[0]] + ts[1..];
    }
  }

  /** The filter keeps the relative order: filtering a concatenation concatenates the filtered parts. */
  lemma {:induction false} DedupConcat(a: seq<Entry>, b: seq<Entry>, threatType: string, location: string)
    ensures Dedup(a + b, threatType, location) == Dedup(a, threatType, location) + Dedup(b, threatType, location)
  {
    if a != [] {
      DedupConcat(a[1..], b, threatType, location);
      var h := if Matches(a[0], threatType, location) then [] else [a[0]];
      assert (a + b)[1..] == a[1..] + b && (a + b)[0] == a[0];
      assert Dedup(a + b, threatType, location) == h + Dedup(a[1..] + b, threatType, location);
      assert Dedup(a, threatType, location) == h + Dedup(a[1..], threatType, location);
    } else {
      assert a + b == b;
    }
  }

  /** `prediction.get(k)`. */
  function Lookup(prediction: Entry, k: string): Value
  {
    Get(prediction, k).GetOr(Null)
  }

  /** The entry's standard fields, before the other prediction fields. */
  function BaseEntry(threatType: string, location: string, prediction: Entry, now: string): Entry
  {
    [("type", Str(threatType)), ("location", Str(location)), ("timestamp", Str(now)),
     ("risk_level", Lookup(prediction, "risk_level")), ("risk_score", Lookup(prediction, "risk_score")),
     ("confidence", Lookup(prediction, "confidence")), ("summary", Lookup(prediction, "summary")),
     ("key_factors", Lookup(prediction, "key_factors")), ("pattern_detected", Lookup(prediction, "pattern_detected")),
     ("recommendation", Lookup(prediction, "recommendation"))]
  }

  /** The ten fixed keys are distinct: each has its own position. */
  lemma BaseUnique(threatType: string, location: string, prediction: Entry, now: string)
    ensures UniqueKeys(BaseEntry(threatType, location, prediction, now))
  {
    var base := BaseEntry(threatType, location, prediction, now);
    assert forall i :: 0 <= i < |base| ==> BaseRank(base[i].0) == i;
  }

  /** The position of a fixed key in the base entry. */
  function BaseRank(k: string): int
  {
    if k == "type" then 0 else if k == "location" then 1 else if k == "timestamp" then 2
    else if k == "risk_level" then 3 else if k == "risk_score" then 4 else if k == "confidence" then 5
    else if k == "summary" then 6 else if k == "key_factors" then 7 else if k == "pattern_detected" then 8
    else if k == "recommendation" then 9 else -1
  }

  /** `for k, v in items: if k not in skip: entry[k] = v`. */
  function CopyFields(entry: Entry, items: Entry, skip: set<string>): Entry
  {
    if items == [] then entry
    else
      var x := items[|items| - 1];
      var e := CopyFields(entry, items[..|items| - 1], skip);
      if x.0 in skip then e else Put(e, x.0, x.1)
  }

  /** `if extra:`: present and non-empty. */
  predicate Truthy(extra: Option<Entry>)
  {
    extra.Some? && extra.value != []
  }

  /** The entry `save_threat` appends, with the prediction keys in `skip` left out. */
  function EntryOf(threatType: string, location: string, prediction: Entry, extra: Option<Entry>, now: string, skip: set<string>): Entry
  {
    var e := CopyFields(BaseEntry(threatType, location, prediction, now), prediction, skip);
    if Truthy(extra) then Put(e, "metadata", Obj(extra.value)) else e
  }

  /** The loop that copies the other prediction fields into the entry. */
  method BuildEntry(threatType: string, location: string, prediction: Entry, extra: Option<Entry>, now: string, skip: set<string>)
    returns (entry: Entry)
    ensures entry == EntryOf(threatType, location, prediction, extra, now, skip)
  {
    entry := BaseEntry(threatType, location, prediction, now);
    ghost var base := entry;
    for i := 0 to |prediction|
      invariant entry == CopyFields(base, prediction[..i], skip)
    {
      assert prediction[..i + 1][..i] == prediction[..i];
      var (k, v) := prediction[i];
      if k !in skip {
        entry := Put(entry, k, v);
      }
    }
    assert prediction[..|prediction|] == prediction;
    if extra.Some? && extra.value != [] {
      entry := Put(entry, "metadata", Obj(extra.value));
    }
  }

  // ---------------------------------------------------------------------
  // What copying does to a key
  // ---------------------------------------------------------------------

  /** A skipped key, or one the prediction lacks, keeps its value. */
  lemma {:induction false} CopyUntouched(entry: Entry, items: Entry, skip: set<string>, k: string)
    requires k in skip || !HasKey(items, k)
    ensures Get(CopyFields(entry, items, skip), k) == Get(entry, k)
  {
    if items != [] {
      var init := items[..|items| - 1];
      if !HasKey(items, k) {
        assert !HasKey(init, k) by {
          assert forall i :: 0 <= i < |init| ==> init[i] == items[i];
        }
        assert items[|items| - 1].0 != k;
      }
      CopyUntouched(entry, init, skip, k);
    }
  }

  /** A copied key holds the value of its last occurrence. */
  lemma {:induction false} CopyLast(entry: Entry, items: Entry, skip: set<string>, i: nat)
    requires i < |items| && items[i].0 !in skip
    requires forall j :: i < j < |items| ==> items[j].0 != items[i].0
    ensures Get(CopyFields(entry, items, skip), items[i].0) == Some(items[i].1)
  {
    var n := |items| - 1;
    if i < n {
      var init := items[..n];
      assert init[i] == items[i];
      CopyLast(entry, init, skip, i);
    }
  }

  /** A key of the entry stays a key. */
  lemma {:induction false} CopyKeeps(entry: Entry, items: Entry, skip: set<string>, k: string)
    requires HasKey(entry, k)
    ensures HasKey(CopyFields(entry, items, skip), k)
  {
    if items != [] {
      var x := items[|items| - 1];
      var e := CopyFields(entry, items[..|items| - 1], skip);
      CopyKeeps(entry, items[..|items| - 1], skip, k);
      if x.0 !in skip {
        PutKeys(e, x.0, x.1, k);
      }
    }
  }

  /** A key the entry and the copied prediction keys lack stays absent. */
  lemma {:induction false} CopyAbsent(entry: Entry, items: Entry, skip: set<string>, k: string)
    requires !HasKey(entry, k) && (k in skip || !HasKey(items, k))
    ensures !HasKey(CopyFields(entry, items, skip), k)
  {
    CopyUntouched(entry, items, skip, k);
  }

  // ---------------------------------------------------------------------
  // The saved entry
  // ---------------------------------------------------------------------

  /** The seven standard fields come from the prediction, null where it lacks one. */
  lemma EntryStandard(threatType: string, location: string, prediction: Entry, extra: Option<Entry>, now: string, skip: set<string>, i: nat)
    requires i < |Standard| && SourceSkip <= skip
    ensures Get(EntryOf(threatType, location, prediction, extra, now, skip), Standard[i]) == Some(Lookup(prediction, Standard[i]))
  {
    var base := BaseEntry(threatType, location, prediction, now);
    assert base[i + 3] == (Standard[i], Lookup(prediction, Standard[i]));
    BaseUnique(threatType, location, prediction, now);
    GetUnique(base, i + 3);
    CopyUntouched(base, prediction, skip, Standard[i]);
  }

  /** With the corrected skip set the entry keeps the given type and location, so it matches them. */
  lemma EntryMatches(threatType: string, location: string, prediction: Entry, extra: Option<Entry>, now: string)
    ensures Matches(EntryOf(threatType, location, prediction, extra, now, Skip), threatType, location)
  {
    var base := BaseEntry(threatType, location, prediction, now);
    BaseUnique(threatType, location, prediction, now);
    GetUnique(base, 0);
    GetUnique(base, 1);
    CopyUntouched(base, prediction, Skip, "type");
    CopyUntouched(base, prediction, Skip, "location");
  }

  /** Every other key of the prediction is copied with its value. */
  lemma EntryCopies(threatType: string, location: string, prediction: Entry, extra: Option<Entry>, now: string, skip: set<string>, i: nat)
    requires UniqueKeys(prediction) && i < |prediction| && prediction[i].0 !in skip && prediction[i].0 != "metadata"
    ensures Get(EntryOf(threatType, location, prediction, extra, now, skip), prediction[i].0) == Some(prediction[i].1)
  {
    CopyLast(BaseEntry(threatType, location, prediction, now), prediction, skip, i);
  }

  /** `raw_response`, `model` and `error` never reach the entry. */
  lemma EntryOmits(threatType: string, location: string, prediction: Entry, extra: Option<Entry>, now: string, skip: set<string>, k: string)
    requires SourceSkip <= skip && k in {"raw_response", "model", "error"}
    ensures !HasKey(EntryOf(threatType, location, prediction, extra, now, skip), k)
  {
    CopyAbsent(BaseEntry(threatType, location, prediction, now), prediction, skip, k);
    if Truthy(extra) {
      PutKeys(CopyFields(BaseEntry(threatType, location, prediction, now), prediction, skip), "metadata", Obj(extra.value), k);
    }
  }

  /** The entry carries `metadata` when `extra` is truthy, and otherwise only when the prediction has such a key. */
  lemma EntryMetadata(threatType: string, location: string, prediction: Entry, extra: Option<Entry>, now: string, skip: set<string>)
    ensures Truthy(extra) ==> Get(EntryOf(threatType, location, prediction, extra, now, skip), "metadata") == Some(Obj(extra.value))
    ensures !Truthy(extra) && !HasKey(prediction, "metadata") ==> !HasKey(EntryOf(threatType, location, prediction, extra, now, skip), "metadata")
  {
    if !HasKey(prediction, "metadata") {
      CopyAbsent(BaseEntry(threatType, location, prediction, now), prediction, skip, "metadata");
    }
  }

  /** The entry has a type and a location, whatever the prediction holds. */
  lemma EntryKeys(threatType: string, location: string, prediction: Entry, extra: Option<Entry>, now: string, skip: set<string>)
    ensures HasKey(EntryOf(threatType, location, prediction, extra, now, skip), "type")
    ensures HasKey(EntryOf(threatType, location, prediction, extra, now, skip), "location")
  {
    var base := BaseEntry(threatType, location, prediction, now);
    var e := CopyFields(base, prediction, skip);
    assert base[0].0 == "type" && base[1].0 == "location";
    CopyKeeps(base, prediction, skip, "type");
    CopyKeeps(base, prediction, skip, "location");
    if Truthy(extra) {
      PutKeys(e, "metadata", Obj(extra.value), "type");
      PutKeys(e, "metadata", Obj(extra.value), "location");
    }
  }

  /**
   * As written, a prediction may overwrite the entry's location: saving it
   * twice for the same type and location keeps both entries.
   */
  lemma AsWrittenKeepsDuplicates()
    ensures var e := EntryOf("earthquake", "San Francisco", [("location", Str("elsewhere"))], None, "now", SourceSkip);
            !Matches(e, "earthquake", "San Francisco") &&
            |Dedup([e], "earthquake", "San Francisco") + [e]| == 2
  {
    var p: Entry := [("location", Str("elsewhere"))];
    var base := BaseEntry("earthquake", "San Francisco", p, "now");
    var e := CopyFields(base, p, SourceSkip);
    assert p[..0] == [];
    assert e == Put(base, "location", Str("elsewhere"));
  }

  /** The saved list is the filtered list and the new entry, so with the corrected skip set exactly one threat matches, the last. */
  lemma SavedUnique(ts: seq<Entry>, threatType: string, location: string, prediction: Entry, extra: Option<Entry>, now: string)
    ensures var r := Dedup(ts, threatType, location) + [EntryOf(threatType, location, prediction, extra, now, Skip)];
            Matches(r[|r| - 1], threatType, location) && forall i :: 0 <= i < |r| - 1 ==> !Matches(r[i], threatType, location)
  {
    EntryMatches(threatType, location, prediction, extra, now);
    var d := Dedup(ts, threatType, location);
    var r := d + [EntryOf(threatType, location, prediction, extra, now, Skip)];
    forall i | 0 <= i < |r| - 1
      ensures !Matches(r[i], threatType, location)
    {
      assert r[i] == d[i];
      DedupMembers(ts, threatType, location, d[i]);
    }
  }

  /** The store: the list of threats and when it was last written. */
  class ThreatContext {
    var threats: seq<Entry>
    var generatedAt: string

    /** Every stored threat has a type and a location, so the filters can read them. */
    ghost predicate Valid()
      reads this
    {
      forall t :: t in threats ==> HasKey(t, "type") && HasKey(t, "location")
    }

    /** The store as the file holds it. */
    constructor(threats0: seq<Entry>, generatedAt0: string)
      ensures threats == threats0 && generatedAt == generatedAt0
    {
      threats := threats0;
      generatedAt := generatedAt0;
    }

    /** `save_threat`: drops the threats of this type and location and appends the new entry. */
    method SaveThreat(threatType: string, location: string, prediction: Entry, extra: Option<Entry>, now: string)
      requires Valid()
      modifies this
      ensures Valid()
      ensures threats == Dedup(old(threats), threatType, location) + [EntryOf(threatType, location, prediction, extra, now, Skip)]
      ensures generatedAt == now
    {
      var entry := BuildEntry(threatType, location, prediction, extra, now, Skip);
      EntryKeys(threatType, location, prediction, extra, now, Skip);
      forall t | t in Dedup(threats, threatType, location)
        ensures t in threats
      {
        DedupMembers(threats, threatType, location, t);
      }
      threats := Dedup(threats, threatType, location) + [entry];
      generatedAt := now;
    }

    /** `save_threat` as written, which lets the prediction overwrite `type`, `location`, `timestamp` and `metadata`. */
    method SaveThreatAsWritten(threatType: string, location: string, prediction: Entry, extra: Option<Entry>, now: string)
      requires Valid()
      modifies this
      ensures Valid()
      ensures threats == Dedup(old(threats), threatType, location) + [EntryOf(threatType, location, prediction, extra, now, SourceSkip)]
      ensures generatedAt == now
    {
      var entry := BuildEntry(threatType, location, prediction, extra, now, SourceSkip);
      EntryKeys(threatType, location, prediction, extra, now, SourceSkip);
      forall t | t in Dedup(threats, threatType, location)
        ensures t in threats
      {
        DedupMembers(threats, threatType, location, t);
      }
      threats := Dedup(threats, threatType, location) + [entry];
      generatedAt := now;
    }

    /** `get_threats_by_type`: the threats of that type, in order. */
    function ThreatsByType(threatType: string): (r: seq<Entry>)
      reads this
      ensures forall t :: t in r <==> t in threats && Get(t, "type") == Some(Str(threatType))
    {
      OfType(threats, threatType)
    }

    /** `clear_threats`: an empty list, stamped now. */
    method ClearThreats(now: string)
      modifies this
      ensures threats == [] && generatedAt == now
      ensures Valid()
    {
      threats := [];
      generatedAt := now;
    }
  }

  /** `[t for t in ts if t["type"] == threat_type]`. */
  function OfType(ts: seq<Entry>, threatType: string): (r: seq<Entry>)
    ensures forall t :: t in r <==> t in ts && Get(t, "type") == Some(Str(threatType))
  {
    if ts == [] then []
    else
      assert ts == [ts[0]] + ts[1..];
      (if Get(ts[0], "type") == Some(Str(threatType)) then [ts[0]] else []) + OfType(ts[1..], threatType)
  }
}
