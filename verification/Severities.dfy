/** Incident severities, most urgent first. */
module Severities {
  datatype Severity = P0 | P1 | P2 | P3

  function Rank(s: Severity): (r: nat)
    ensures r < 4
  {
    match s
    case P0 => 0
    case P1 => 1
    case P2 => 2
    case P3 => 3
  }

  function OfRank(r: nat): (s: Severity)
    requires r < 4
    ensures Rank(s) == r
  {
    [P0, P1, P2, P3][r]
  }
}
