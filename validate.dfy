/**
 * `validate` in `main.py`: the checks run on the parsed analysis of the
 * language model before it is saved. The analysis is a JSON object; each
 * value is modelled by the shape the checks look at. Writing the result file
 * and the console report are left out.
 */
module Validate {
  import opened Wrappers

  /** A JSON value as the checks see it: a string, a list or object with its length, or a scalar (a number, a boolean or null). */
  datatype Json = JStr(s: string) | JList(len: nat) | JObject(size: nat) | JScalar

  type Analysis = map<string, Json>

  /** A record of `validation["checks"]`, with its `value` or `count` entry when it has one. */
  datatype Check = Check(name: string, passed: bool, detail: Detail)
  datatype Detail = NoDetail | Value(value: Json) | Count(count: nat)

  datatype Validation = Validation(status: string, checks: seq<Check>)

  const Required: seq<string> := ["location", "overall_threat_level", "ranked_calamities", "apocalypse_timeline"]
  const ValidLevels: set<string> := {"LOW", "MODERATE", "HIGH", "CRITICAL"}
  const TypeError: string := "TypeError"

  /** `level in valid_levels`: lists and objects are unhashable and raise; only a listed string is valid. */
  function LevelValid(level: Json): Result<bool>
  {
    match level
    case JStr(s) => Success(s in ValidLevels)
    case JScalar => Success(false)
    case _ => Failure(TypeError)
  }

  /** `len(value)`: scalars have no length. */
  function Len(value: Json): Result<nat>
  {
    match value
    case JStr(s) => Success(|s|)
    case JList(n) => Success(n)
    case JObject(n) => Success(n)
    case JScalar => Failure(TypeError)
  }

  function GetOr(a: Analysis, key: string, default: Json): Json
  {
    if key in a then a[key] else default
  }

  /** The checks would raise: an unhashable threat level, or a ranked list or timeline without a length. */
  predicate Raises(a: Analysis)
  {
    LevelValid(GetOr(a, "overall_threat_level", JStr(""))).Failure? ||
    Len(GetOr(a, "ranked_calamities", JList(0))).Failure? ||
    Len(GetOr(a, "apocalypse_timeline", JList(0))).Failure?
  }

  /**
   * `validate`: seven checks in a fixed order, one per required field, then
   * the threat level, the ranked calamities and the timeline. The status is
   * "failed" exactly when a required field is missing or the level is not one
   * of the four; the last two checks are recorded but do not change it.
   */
  method Validate(a: Analysis) returns (r: Result<Validation>)
    ensures r.Failure? <==> Raises(a)
    ensures r.Failure? ==> r.error == TypeError
    ensures r.Success? ==> |r.value.checks| == 7
    ensures r.Success? ==> forall i :: 0 <= i < 4 ==> r.value.checks[i] == Check("has_" + Required[i], Required[i] in a, NoDetail)
    ensures r.Success? ==>
              var level := GetOr(a, "overall_threat_level", JStr(""));
              r.value.checks[4] == Check("valid_threat_level", LevelValid(level).value, Value(level))
    ensures r.Success? ==>
              var n := Len(GetOr(a, "ranked_calamities", JList(0))).value;
              r.value.checks[5] == Check("has_ranked_calamities", n > 0, Count(n))
    ensures r.Success? ==>
              var n := Len(GetOr(a, "apocalypse_timeline", JList(0))).value;
              r.value.checks[6] == Check("has_timeline_phases", n >= 2, Count(n))
    ensures r.Success? ==> r.value.status in {"passed", "failed"}
    ensures r.Success? ==>
              (r.value.status == "failed" <==>
                 (exists i :: 0 <= i < 4 && Required[i] !in a) || !LevelValid(GetOr(a, "overall_threat_level", JStr(""))).value)
  {
    var status := "passed";
    var checks: seq<Check> := [];
    for i := 0 to |Required|
      invariant |checks| == i
      invariant forall j :: 0 <= j < i ==> checks[j] == Check("has_" + Required[j], Required[j] in a, NoDetail)
      invariant status in {"passed", "failed"}
      invariant status == "failed" <==> exists j :: 0 <= j < i && Required[j] !in a
    {
      var field := Required[i];
      var present := field in a;
      checks := checks + [Check("has_" + field, present, NoDetail)];
      if !present {
        status := "failed";
      }
    }
    var level := GetOr(a, "overall_threat_level", JStr(""));
    var levelValid := LevelValid(level);
    if levelValid.Failure? {
      return Failure(levelValid.error);
    }
    checks := checks + [Check("valid_threat_level", levelValid.value, Value(level))];
    if !levelValid.value {
      status := "failed";
    }
    var ranked := Len(GetOr(a, "ranked_calamities", JList(0)));
    if ranked.Failure? {
      return Failure(ranked.error);
    }
    checks := checks + [Check("has_ranked_calamities", ranked.value > 0, Count(ranked.value))];
    var timeline := Len(GetOr(a, "apocalypse_timeline", JList(0)));
    if timeline.Failure? {
      return Failure(timeline.error);
    }
    checks := checks + [Check("has_timeline_phases", timeline.value >= 2, Count(timeline.value))];
    r := Success(Validation(status, checks));
  }
}
