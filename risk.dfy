/**
 * The four risk levels that both coordinate maps store, with the ranks the
 * earthquake mapper compares them by.
 */
module Risk {

  datatype Level = Low | Medium | High | Critical

  /** `RISK_RANK`. */
  function Rank(l: Level): (r: nat)
    ensures r <= 3
  {
    match l
    case Low => 0
    case Medium => 1
    case High => 2
    case Critical => 3
  }

  /** Distinct levels have distinct ranks. */
  lemma RankInjective(a: Level, b: Level)
    ensures Rank(a) == Rank(b) ==> a == b
  {
  }

  /** The level as the maps store it. */
  function Name(l: Level): (s: string)
    ensures s in {"Low", "Medium", "High", "Critical"}
  {
    match l
    case Low => "Low"
    case Medium => "Medium"
    case High => "High"
    case Critical => "Critical"
  }
}
