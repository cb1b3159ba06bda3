/** The retry loop behind database calls and alert deliveries, with its exponential backoff. */
module Retrying {
  import opened Options

  /** How one attempt ends; `retryable` is what `shouldRetry` says of the error. */
  datatype Attempt<T, E> = Returned(value: T) | Failed(error: E, retryable: bool)

  datatype Outcome<T, E> = Value(value: T) | Error(error: E) | BadOptions

  function Pow2(n: nat): (p: nat)
    ensures p >= 1
  {
    if n == 0 then 1 else 2 * Pow2(n - 1)
  }

  /** `computeDelay` before jitter. */
  function Backoff(attempt: nat, baseDelay: real, cap: Option<real>): real
    requires attempt >= 1
  {
    var exponential := baseDelay * Pow2(attempt - 1) as real;
    if cap.Some? && cap.value < exponential then cap.value else exponential
  }

  /** The share of a delay that is slept. */
  function Jittered(fraction: real, delay: real): (nap: real)
    requires 0.0 <= fraction <= 1.0 && delay >= 0.0
    ensures 0.0 <= nap <= delay
    ensures fraction == 1.0 ==> nap == delay
  {
    fraction * delay
  }

  /** The first `n` backoffs together. */
  function Backoffs(n: nat, baseDelay: real, cap: Option<real>): real {
    if n == 0 then 0.0 else Backoffs(n - 1, baseDelay, cap) + Backoff(n, baseDelay, cap)
  }

  lemma BackoffNonNegative(n: nat, baseDelay: real, cap: Option<real>)
    requires n >= 1 && baseDelay >= 0.0 && (cap.Some? ==> cap.value >= 0.0)
    ensures Backoff(n, baseDelay, cap) >= 0.0
  {
  }

  lemma BackoffBounded(n: nat, baseDelay: real, cap: Option<real>)
    requires n >= 1
    ensures Backoff(n, baseDelay, cap) <= baseDelay * Pow2(n - 1) as real
    ensures cap.Some? ==> Backoff(n, baseDelay, cap) <= cap.value
  {
  }

  lemma Doubling(x: real, n: nat)
    requires n >= 1
    ensures x * (Pow2(n - 1) - 1) as real + x * Pow2(n - 1) as real == x * (Pow2(n) - 1) as real
  {
    assert (Pow2(n) - 1) as real == (Pow2(n - 1) - 1) as real + Pow2(n - 1) as real;
  }

  /** The first backoff is the base delay, each later one twice the one before, up to the cap. */
  lemma BackoffSteps(n: nat, baseDelay: real, cap: real)
    requires n >= 1 && 0.0 <= baseDelay && 0.0 <= cap
    ensures Backoff(1, baseDelay, None) == baseDelay
    ensures Backoff(n + 1, baseDelay, None) == Backoff(n, baseDelay, None) + Backoff(n, baseDelay, None)
    ensures Backoff(n, baseDelay, Some(cap)) == if Backoff(n, baseDelay, None) <= cap then Backoff(n, baseDelay, None) else cap
  {
    assert Pow2(n) as real == Pow2(n - 1) as real + Pow2(n - 1) as real;
    assert Backoff(n + 1, baseDelay, None) == baseDelay * Pow2(n) as real;
  }

  /** `n` backoffs stay below the next doubling. */
  lemma {:induction false} BackoffsDouble(n: nat, baseDelay: real, cap: Option<real>)
    ensures Backoffs(n, baseDelay, cap) <= baseDelay * (Pow2(n) - 1) as real
  {
    if n > 0 {
      BackoffsDouble(n - 1, baseDelay, cap);
      BackoffBounded(n, baseDelay, cap);
      Doubling(baseDelay, n);
    }
  }

  /** Without a cap they are one base delay short of it. */
  lemma {:induction false} BackoffsExact(n: nat, baseDelay: real)
    ensures Backoffs(n, baseDelay, None) == baseDelay * (Pow2(n) - 1) as real
  {
    if n > 0 {
      BackoffsExact(n - 1, baseDelay);
      Doubling(baseDelay, n);
    }
  }

  lemma OneMoreTimes(n: nat, x: real)
    requires n >= 1
    ensures n as real * x == (n - 1) as real * x + x
  {
    assert n as real == (n - 1) as real + 1.0;
  }

  /** And below `n` times the cap. */
  lemma {:induction false} BackoffsCapped(n: nat, baseDelay: real, cap: real)
    ensures Backoffs(n, baseDelay, Some(cap)) <= n as real * cap
  {
    if n > 0 {
      BackoffsCapped(n - 1, baseDelay, cap);
      BackoffBounded(n, baseDelay, Some(cap));
      OneMoreTimes(n, cap);
    }
  }

  /**
   * `fn(n)` is how attempt `n` ends and `jitter(n)` the random share of its backoff that
   * is slept. The last attempt is the first that returns, fails for good or is number
   * `attempts`; its end is the outcome. There is a sleep for every attempt but the last.
   */
  method Retry<T, E>(fn: nat -> Attempt<T, E>, attempts: int, baseDelay: real, cap: Option<real>, jitter: nat -> real)
    returns (outcome: Outcome<T, E>, calls: nat, slept: real)
    requires baseDelay >= 0.0 && (cap.Some? ==> cap.value >= 0.0)
    requires forall n: nat :: 0.0 <= jitter(n) <= 1.0
    ensures attempts < 1 ==> outcome == BadOptions && calls == 0 && slept == 0.0
    ensures attempts >= 1 ==>
      && 1 <= calls <= attempts
      && (forall n: nat :: 1 <= n < calls ==> fn(n).Failed? && fn(n).retryable)
      && (fn(calls).Failed? && fn(calls).retryable ==> calls == attempts)
      && outcome == match fn(calls) { case Returned(v) => Value(v) case Failed(e, _) => Error(e) }
      && 0.0 <= slept <= Backoffs(calls - 1, baseDelay, cap)
      && ((forall n: nat :: jitter(n) == 1.0) ==> slept == Backoffs(calls - 1, baseDelay, cap))
  {
    calls, slept := 0, 0.0;
    if attempts < 1 { return BadOptions, calls, slept; }
    var attempt := 1;
    while true
      invariant 1 <= attempt <= attempts && calls == attempt - 1
      invariant forall n: nat :: 1 <= n < attempt ==> fn(n).Failed? && fn(n).retryable
      invariant 0.0 <= slept <= Backoffs(attempt - 1, baseDelay, cap)
      invariant (forall n: nat :: jitter(n) == 1.0) ==> slept == Backoffs(attempt - 1, baseDelay, cap)
      decreases attempts - attempt
    {
      calls := attempt;
      match fn(attempt) {
        case Returned(v) => return Value(v), calls, slept;
        case Failed(e, retryable) =>
          if !retryable || attempt == attempts { return Error(e), calls, slept; }
      }
      BackoffNonNegative(attempt, baseDelay, cap);
      slept := slept + Jittered(jitter(attempt), Backoff(attempt, baseDelay, cap));
      assert Backoffs(attempt, baseDelay, cap) == Backoffs(attempt - 1, baseDelay, cap) + Backoff(attempt, baseDelay, cap);
      attempt := attempt + 1;
    }
  }
}
