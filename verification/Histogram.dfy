/** The process's latency histogram, and what it should hold for a given history of observations. */
module Histograms {
  datatype HistogramSnapshot = HistogramSnapshot(
    boundariesMs: seq<real>, cumulativeCounts: seq<nat>, sum: real, count: nat)

  /** How many observations are at most `bound`. */
  function CountUpTo(obs: seq<real>, bound: real): (n: nat)
    ensures n <= |obs|
  {
    if obs == [] then 0
    else CountUpTo(obs[..|obs| - 1], bound) + if obs[|obs| - 1] <= bound then 1 else 0
  }

  /** The positions of the observations that are at most `bound`. */
  function AtMostBound(obs: seq<real>, bound: real): set<nat> {
    set i: nat | i < |obs| && obs[i] <= bound
  }

  /** The count is the number of positions that hold such an observation. */
  lemma {:induction false} CountIsPositions(obs: seq<real>, bound: real)
    ensures CountUpTo(obs, bound) == |AtMostBound(obs, bound)|
  {
    if obs != [] {
      var n, before := |obs| - 1, obs[..|obs| - 1];
      CountIsPositions(before, bound);
      assert forall i :: 0 <= i < n ==> before[i] == obs[i];
      assert AtMostBound(obs, bound) == AtMostBound(before, bound) + if obs[n] <= bound then {n} else {};
    }
  }

  function Total(obs: seq<real>): real {
    if obs == [] then 0.0 else Total(obs[..|obs| - 1]) + obs[|obs| - 1]
  }

  /** The snapshot a histogram owes to the observations made so far. */
  function SnapshotOf(boundariesMs: seq<real>, obs: seq<real>): HistogramSnapshot {
    HistogramSnapshot(boundariesMs, seq(|boundariesMs|, i requires 0 <= i < |boundariesMs| => CountUpTo(obs, boundariesMs[i])),
                      Total(obs), |obs|)
  }

  lemma {:induction false} CountConcat(a: seq<real>, b: seq<real>, bound: real)
    ensures CountUpTo(a + b, bound) == CountUpTo(a, bound) + CountUpTo(b, bound)
  {
    if b == [] {
      assert a + b == a;
    } else {
      assert (a + b)[..|a + b| - 1] == a + b[..|b| - 1];
      CountConcat(a, b[..|b| - 1], bound);
    }
  }

  lemma {:induction false} TotalConcat(a: seq<real>, b: seq<real>)
    ensures Total(a + b) == Total(a) + Total(b)
  {
    if b == [] {
      assert a + b == a;
    } else {
      assert (a + b)[..|a + b| - 1] == a + b[..|b| - 1];
      TotalConcat(a, b[..|b| - 1]);
    }
  }

  /** A wider bucket holds at least as much: the counts are cumulative. */
  lemma {:induction false} CountMonotone(obs: seq<real>, low: real, high: real)
    requires low <= high
    ensures CountUpTo(obs, low) <= CountUpTo(obs, high)
  {
    if obs != [] { CountMonotone(obs[..|obs| - 1], low, high); }
  }

  class Histogram {
    const boundariesMs: seq<real>
    const counts: array<nat>
    var total: nat
    var sumMs: real
    ghost var observed: seq<real>

    ghost predicate Valid()
      reads this, counts
    {
      && counts.Length == |boundariesMs|
      && total == |observed|
      && sumMs == Total(observed)
      && forall i :: 0 <= i < counts.Length ==> counts[i] == CountUpTo(observed, boundariesMs[i])
    }

    constructor (boundariesMs: seq<real>)
      ensures Valid() && fresh(counts)
      ensures this.boundariesMs == boundariesMs && observed == []
    {
      this.boundariesMs := boundariesMs;
      counts := new nat[|boundariesMs|](i => 0);
      total, sumMs := 0, 0.0;
      observed := [];
    }

    method Observe(valueMs: real)
      requires Valid()
      modifies this, counts
      ensures Valid() && observed == old(observed) + [valueMs]
    {
      total := total + 1;
      sumMs := sumMs + valueMs;
      ghost var now := observed + [valueMs];
      assert now[..|now| - 1] == observed;
      for i := 0 to |boundariesMs|
        invariant forall k :: 0 <= k < i ==> counts[k] == CountUpTo(now, boundariesMs[k])
        invariant forall k :: i <= k < counts.Length ==> counts[k] == CountUpTo(observed, boundariesMs[k])
        modifies counts
      {
        if valueMs <= boundariesMs[i] {
          counts[i] := counts[i] + 1;
        }
      }
      observed := now;
    }

    method Snapshot() returns (snap: HistogramSnapshot)
      requires Valid()
      ensures snap == SnapshotOf(boundariesMs, observed)
    {
      snap := HistogramSnapshot(boundariesMs, counts[..], sumMs, total);
      assert counts[..] == SnapshotOf(boundariesMs, observed).cumulativeCounts;
    }
  }
}
