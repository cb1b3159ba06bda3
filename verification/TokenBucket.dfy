/**
 * The two-bucket rate limiter: one Redis script that refills an address bucket
 * and the global bucket and debits both or neither. Tokens are reals; the
 * request carries the caller's clock (`now`) and Redis's own clock (`at`), both
 * in milliseconds.
 */
module TokenBuckets {
  import opened Options

  datatype Limits = Limits(capacity: nat, rate: real)

  /** The Redis hash with its expiry time. */
  datatype Bucket = Bucket(tokens: real, ts: int, expiresAt: int)

  /** `expiring` is false for the idealised store that never forgets a key. */
  datatype Setup = Setup(ip: Limits, whole: Limits, globalKey: string, ttlSeconds: nat, expiring: bool)

  datatype Request = Request(ipKey: string, now: int, at: int, cost: nat)

  datatype Scope = Ip | Global

  datatype Reply = Reply(allowed: bool, limitedBy: Option<Scope>, ip: real, whole: real)

  type Store = map<string, Bucket>

  function Min(a: real, b: real): real { if a <= b then a else b }

  function PositivePart(ms: int): nat { if ms >= 0 then ms else 0 }

  /** What `elapsed` milliseconds add. */
  function Earned(ms: nat, rate: real): real { (ms as real / 1000.0) * rate }

  function Refill(b: Option<Bucket>, lim: Limits, now: int): real {
    match b
    case None => Min(lim.capacity as real, lim.capacity as real + Earned(0, lim.rate))
    case Some(b) => Min(lim.capacity as real, b.tokens + Earned(PositivePart(now - b.ts), lim.rate))
  }

  /** HMGET: an expired key is gone. */
  function Lookup(su: Setup, s: Store, key: string, at: int): Option<Bucket> {
    if key in s && (su.expiring ==> at < s[key].expiresAt) then Some(s[key]) else None
  }

  function LimitsOf(su: Setup, key: string): Limits {
    if key == su.globalKey then su.whole else su.ip
  }

  function Check(su: Setup, s: Store, r: Request): (Store, Reply) {
    var ip := Refill(Lookup(su, s, r.ipKey, r.at), su.ip, r.now);
    var whole := Refill(Lookup(su, s, su.globalKey, r.at), su.whole, r.now);
    var cost := r.cost as real;
    var limitedBy := if ip < cost then Some(Ip) else if whole < cost then Some(Global) else None;
    var debit := if limitedBy.None? then cost else 0.0;
    var expiresAt := r.at + 1000 * su.ttlSeconds;
    (s[r.ipKey := Bucket(ip - debit, r.now, expiresAt)][su.globalKey := Bucket(whole - debit, r.now, expiresAt)],
     Reply(limitedBy.None?, limitedBy, ip - debit, whole - debit))
  }

  function Run(su: Setup, s: Store, trace: seq<Request>): (Store, seq<Reply>)
    decreases |trace|
  {
    if trace == [] then (s, [])
    else
      var (s1, reply) := Check(su, s, trace[0]);
      var (t, replies) := Run(su, s1, trace[1..]);
      (t, [reply] + replies)
  }

  /** Refill rates are positive in every configuration. */
  predicate Sane(su: Setup) {
    su.ip.rate > 0.0 && su.whole.rate > 0.0
  }

  /** No address bucket shares the global bucket's key. */
  predicate Separate(su: Setup, trace: seq<Request>) {
    forall i :: 0 <= i < |trace| ==> trace[i].ipKey != su.globalKey
  }

  // ---------------------------------------------------------------- tokens stay within [0, capacity]

  ghost predicate Bounded(su: Setup, s: Store) {
    forall k :: k in s ==> 0.0 <= s[k].tokens <= LimitsOf(su, k).capacity as real
  }

  lemma EarnedNonNegative(ms: nat, rate: real)
    requires rate > 0.0
    ensures Earned(ms, rate) >= 0.0
  {
  }

  lemma RefillBounded(b: Option<Bucket>, lim: Limits, now: int)
    requires lim.rate > 0.0 && (b.Some? ==> 0.0 <= b.value.tokens <= lim.capacity as real)
    ensures 0.0 <= Refill(b, lim, now) <= lim.capacity as real
    ensures b.Some? ==> Refill(b, lim, now) >= b.value.tokens
    ensures b.None? ==> Refill(b, lim, now) == lim.capacity as real
  {
    if b.Some? { EarnedNonNegative(PositivePart(now - b.value.ts), lim.rate); }
  }

  lemma CheckBounded(su: Setup, s: Store, r: Request)
    requires Sane(su) && Bounded(su, s) && r.ipKey != su.globalKey
    ensures Bounded(su, Check(su, s, r).0)
  {
    RefillBounded(Lookup(su, s, r.ipKey, r.at), su.ip, r.now);
    RefillBounded(Lookup(su, s, su.globalKey, r.at), su.whole, r.now);
  }

  /** Over any trace, whatever the clocks do. */
  lemma {:induction false} RunBounded(su: Setup, s: Store, trace: seq<Request>)
    requires Sane(su) && Bounded(su, s) && Separate(su, trace)
    ensures Bounded(su, Run(su, s, trace).0)
    decreases |trace|
  {
    if trace != [] {
      CheckBounded(su, s, trace[0]);
      RunBounded(su, Check(su, s, trace[0]).0, trace[1..]);
    }
  }

  /**
   * Both or neither: an allowed request takes exactly its cost from both buckets, a denied
   * one nothing. The address bucket is named whenever it cannot pay, the global one when it alone cannot.
   */
  lemma AllOrNothing(su: Setup, s: Store, r: Request)
    requires Sane(su) && Bounded(su, s) && r.ipKey != su.globalKey
    ensures var ip := Refill(Lookup(su, s, r.ipKey, r.at), su.ip, r.now);
            var whole := Refill(Lookup(su, s, su.globalKey, r.at), su.whole, r.now);
            var (t, reply) := Check(su, s, r);
      && (reply.allowed <==> ip >= r.cost as real && whole >= r.cost as real)
      && (reply.limitedBy == Some(Ip) <==> ip < r.cost as real)
      && (reply.limitedBy == Some(Global) <==> whole < r.cost as real <= ip)
      && (reply.allowed ==> ip - reply.ip == whole - reply.whole == r.cost as real)
      && (!reply.allowed ==> reply.ip == ip && reply.whole == whole)
      && reply.ip == t[r.ipKey].tokens && reply.whole == t[su.globalKey].tokens
      && (forall k :: k != r.ipKey && k != su.globalKey ==> (k in t <==> k in s))
      && (forall k :: k != r.ipKey && k != su.globalKey && k in s ==> t[k] == s[k])
  {
  }

  // ---------------------------------------------------------------- keeping pace

  predicate Touches(su: Setup, r: Request, key: string) {
    r.ipKey == key || su.globalKey == key
  }

  /** When a bucket was written: by the caller's clock and by Redis's. */
  datatype Mark = Mark(now: int, at: int)

  function MarkOf(su: Setup, s: Store, key: string): Option<Mark> {
    if key in s then Some(Mark(s[key].ts, s[key].expiresAt - 1000 * su.ttlSeconds)) else None
  }

  /** If a key written at `m` has lapsed by `r`, the caller's clock has seen it fill up. */
  predicate LapsedOnlyWhenFull(lim: Limits, ttlSeconds: nat, m: Mark, r: Request) {
    r.at - m.at >= 1000 * ttlSeconds ==> Earned(PositivePart(r.now - m.now), lim.rate) >= lim.capacity as real
  }

  /** Every request on the bucket finds it alive or due to be full since the request on it before. */
  predicate KeyPaced(su: Setup, trace: seq<Request>, key: string, last: Option<Mark>) {
    if trace == [] then true
    else if !Touches(su, trace[0], key) then KeyPaced(su, trace[1..], key, last)
    else
      && (last.Some? ==> LapsedOnlyWhenFull(LimitsOf(su, key), su.ttlSeconds, last.value, trace[0]))
      && KeyPaced(su, trace[1..], key, Some(Mark(trace[0].now, trace[0].at)))
  }

  lemma MarkAfter(su: Setup, s: Store, r: Request, key: string)
    ensures MarkOf(su, Check(su, s, r).0, key) == if Touches(su, r, key) then Some(Mark(r.now, r.at)) else MarkOf(su, s, key)
  {
  }

  /** What a request finds in a bucket that keeps pace is what a store without expiry would show it. */
  lemma LapseUnseen(su: Setup, s: Store, r: Request, key: string)
    requires Sane(su) && Bounded(su, s)
    requires su.expiring && key in s ==> LapsedOnlyWhenFull(LimitsOf(su, key), su.ttlSeconds, MarkOf(su, s, key).value, r)
    ensures Refill(Lookup(su, s, key, r.at), LimitsOf(su, key), r.now)
         == Refill(if key in s then Some(s[key]) else None, LimitsOf(su, key), r.now)
  {
  }

  // ---------------------------------------------------------------- the rate bound

  /** Total cost admitted by the requests that touch `key`. */
  function Admitted(su: Setup, trace: seq<Request>, replies: seq<Reply>, key: string): nat
    requires |trace| == |replies|
  {
    if trace == [] then 0
    else (if Touches(su, trace[0], key) && replies[0].allowed then trace[0].cost else 0)
         + Admitted(su, trace[1..], replies[1..], key)
  }

  /** Sum of the forward steps between successive requests that touch `key`. */
  function ForwardSteps(su: Setup, trace: seq<Request>, key: string, last: Option<int>): nat {
    if trace == [] then 0
    else if !Touches(su, trace[0], key) then ForwardSteps(su, trace[1..], key, last)
    else (if last.Some? then PositivePart(trace[0].now - last.value) else 0)
         + ForwardSteps(su, trace[1..], key, Some(trace[0].now))
  }

  function LastTouch(s: Store, key: string): Option<int> {
    if key in s then Some(s[key].ts) else None
  }

  function Available(su: Setup, s: Store, key: string): real {
    if key in s then s[key].tokens else LimitsOf(su, key).capacity as real
  }

  lemma {:induction false} RunLength(su: Setup, s: Store, trace: seq<Request>)
    ensures |Run(su, s, trace).1| == |trace|
    decreases |trace|
  {
    if trace != [] { RunLength(su, Check(su, s, trace[0]).0, trace[1..]); }
  }

  lemma EarnedAdds(a: nat, b: nat, rate: real)
    ensures Earned(a + b, rate) == Earned(a, rate) + Earned(b, rate)
  {
    assert (a + b) as real / 1000.0 == a as real / 1000.0 + b as real / 1000.0;
  }

  /** One request cannot take more than what was there and what time has added. */
  lemma CheckSpends(su: Setup, s: Store, r: Request, key: string)
    requires Sane(su) && Bounded(su, s) && r.ipKey != su.globalKey && Touches(su, r, key)
    requires su.expiring && key in s ==> LapsedOnlyWhenFull(LimitsOf(su, key), su.ttlSeconds, MarkOf(su, s, key).value, r)
    ensures var step := if key in s then PositivePart(r.now - s[key].ts) else 0;
            var spent := if Check(su, s, r).1.allowed then r.cost else 0;
            spent as real + Available(su, Check(su, s, r).0, key)
              <= Available(su, s, key) + Earned(step, LimitsOf(su, key).rate)
    ensures LastTouch(Check(su, s, r).0, key) == Some(r.now)
  {
    LapseUnseen(su, s, r, key);
    RefillBounded(Lookup(su, s, key, r.at), LimitsOf(su, key), r.now);
  }

  /** The forward steps of a trace that starts with a request on the bucket. */
  lemma FirstTouch(su: Setup, trace: seq<Request>, key: string, last: Option<int>)
    requires trace != [] && Sane(su)
    ensures var step := if Touches(su, trace[0], key) && last.Some? then PositivePart(trace[0].now - last.value) else 0;
            var next := if Touches(su, trace[0], key) then Some(trace[0].now) else last;
            var rate := LimitsOf(su, key).rate;
      Earned(ForwardSteps(su, trace, key, last), rate)
        == Earned(step, rate) + Earned(ForwardSteps(su, trace[1..], key, next), rate)
  {
    var step := if Touches(su, trace[0], key) && last.Some? then PositivePart(trace[0].now - last.value) else 0;
    var next := if Touches(su, trace[0], key) then Some(trace[0].now) else last;
    EarnedAdds(step, ForwardSteps(su, trace[1..], key, next), LimitsOf(su, key).rate);
  }

  lemma {:induction false} SpendingBound(su: Setup, s: Store, trace: seq<Request>, key: string)
    requires Sane(su) && Bounded(su, s) && Separate(su, trace)
    requires su.expiring ==> KeyPaced(su, trace, key, MarkOf(su, s, key))
    requires |Run(su, s, trace).1| == |trace|
    ensures Admitted(su, trace, Run(su, s, trace).1, key) as real
         <= Available(su, s, key)
          + Earned(ForwardSteps(su, trace, key, LastTouch(s, key)), LimitsOf(su, key).rate)
    decreases |trace|
  {
    if trace == [] {
      AvailableNonNegative(su, s, key);
    } else {
      var r := trace[0];
      var s1 := Check(su, s, r).0;
      CheckBounded(su, s, r);
      RunLength(su, s1, trace[1..]);
      assert Run(su, s, trace).1[1..] == Run(su, s1, trace[1..]).1;
      MarkAfter(su, s, r, key);
      SpendingBound(su, s1, trace[1..], key);
      FirstTouch(su, trace, key, LastTouch(s, key));
      if Touches(su, r, key) { CheckSpends(su, s, r, key); }
    }
  }

  lemma AvailableNonNegative(su: Setup, s: Store, key: string)
    requires Bounded(su, s)
    ensures Available(su, s, key) >= 0.0
  {
  }

  predicate Forward(trace: seq<Request>) {
    forall i, j :: 0 <= i < j < |trace| ==> trace[i].now <= trace[j].now
  }

  /** With a clock that never goes back the forward steps are at most the elapsed time. */
  lemma {:induction false} ForwardIsElapsed(su: Setup, trace: seq<Request>, key: string, last: Option<int>)
    requires Forward(trace) && trace != []
    requires last.Some? ==> last.value <= trace[0].now
    ensures ForwardSteps(su, trace, key, last)
         <= trace[|trace| - 1].now - (if last.Some? then last.value else trace[0].now)
    decreases |trace|
  {
    if |trace| > 1 {
      ForwardIsElapsed(su, trace[1..], key, if Touches(su, trace[0], key) then Some(trace[0].now) else last);
    }
  }

  lemma EarnedMonotone(a: nat, b: nat, rate: real)
    requires a <= b && rate > 0.0
    ensures Earned(a, rate) <= Earned(b, rate)
  {
    EarnedAdds(a, b - a, rate);
    EarnedNonNegative(b - a, rate);
  }

  // ---------------------------------------------------------------- expiry

  /** A key that outlives its own refill. */
  predicate OutlivesRefill(lim: Limits, ttlSeconds: nat) {
    ttlSeconds as real * lim.rate >= lim.capacity as real
  }

  /** Forgetting a bucket that has been idle for the whole lifetime changes nothing. */
  predicate Forgettable(lim: Limits, ttlSeconds: nat, b: Bucket, now: int) {
    now - b.ts >= 1000 * ttlSeconds ==> Refill(Some(b), lim, now) == Refill(None, lim, now)
  }

  lemma IdleBucketIsFull(lim: Limits, ttlSeconds: nat, b: Bucket, now: int)
    requires lim.rate > 0.0 && 0.0 <= b.tokens <= lim.capacity as real && OutlivesRefill(lim, ttlSeconds)
    ensures Forgettable(lim, ttlSeconds, b, now)
  {
    if now - b.ts >= 1000 * ttlSeconds {
      EarnedMonotone(1000 * ttlSeconds, now - b.ts, lim.rate);
      assert (1000 * ttlSeconds) as real / 1000.0 == ttlSeconds as real;
    }
  }

  /** Exactly `ttl * rate >= capacity`: otherwise an emptied bucket is seen to come back too full. */
  lemma ForgettableExactly(lim: Limits, ttlSeconds: nat)
    requires lim.rate > 0.0
    ensures OutlivesRefill(lim, ttlSeconds) <==>
            forall b: Bucket, now: int :: 0.0 <= b.tokens <= lim.capacity as real ==> Forgettable(lim, ttlSeconds, b, now)
  {
    if OutlivesRefill(lim, ttlSeconds) {
      forall b: Bucket, now: int | 0.0 <= b.tokens <= lim.capacity as real ensures Forgettable(lim, ttlSeconds, b, now) {
        IdleBucketIsFull(lim, ttlSeconds, b, now);
      }
    } else {
      var emptied := Bucket(0.0, 0, 0);
      assert (1000 * ttlSeconds) as real / 1000.0 == ttlSeconds as real;
      assert !Forgettable(lim, ttlSeconds, emptied, 1000 * ttlSeconds);
    }
  }

  /** Whether a bucket of so many tokens, written at `m`, has lapsed by `r` makes no difference. */
  predicate LapseHidden(lim: Limits, ttlSeconds: nat, m: Mark, tokens: real, r: Request) {
    r.at - m.at >= 1000 * ttlSeconds ==>
      Refill(Some(Bucket(tokens, m.now, m.at + 1000 * ttlSeconds)), lim, r.now) == Refill(None, lim, r.now)
  }

  /** The pace condition is what one lapse needs: without it some token count shows the difference. */
  lemma LapseShowsExactly(lim: Limits, ttlSeconds: nat, m: Mark, r: Request)
    requires lim.rate > 0.0
    ensures LapsedOnlyWhenFull(lim, ttlSeconds, m, r) <==>
      forall tokens: real :: 0.0 <= tokens <= lim.capacity as real ==> LapseHidden(lim, ttlSeconds, m, tokens, r)
  {
    if !LapsedOnlyWhenFull(lim, ttlSeconds, m, r) {
      assert !LapseHidden(lim, ttlSeconds, m, 0.0, r);
    }
  }

  /** Every bucket keeps pace. */
  ghost predicate Paced(su: Setup, s: Store, trace: seq<Request>) {
    forall key :: KeyPaced(su, trace, key, MarkOf(su, s, key))
  }

  lemma StillPaced(su: Setup, s: Store, trace: seq<Request>)
    requires trace != [] && Paced(su, s, trace)
    ensures Paced(su, Check(su, s, trace[0]).0, trace[1..])
  {
    forall key ensures KeyPaced(su, trace[1..], key, MarkOf(su, Check(su, s, trace[0]).0, key)) {
      assert KeyPaced(su, trace, key, MarkOf(su, s, key));
      MarkAfter(su, s, trace[0], key);
    }
  }

  lemma LookupUnobservable(su: Setup, s: Store, r: Request, key: string)
    requires Sane(su) && Bounded(su, s)
    requires key in s ==> LapsedOnlyWhenFull(LimitsOf(su, key), su.ttlSeconds, MarkOf(su, s, key).value, r)
    ensures Refill(Lookup(su.(expiring := true), s, key, r.at), LimitsOf(su, key), r.now)
         == Refill(Lookup(su.(expiring := false), s, key, r.at), LimitsOf(su, key), r.now)
  {
  }

  /** On a request that keeps pace both stores act alike. */
  lemma CheckUnobservable(su: Setup, s: Store, r: Request)
    requires Sane(su) && Bounded(su, s) && r.ipKey != su.globalKey
    requires r.ipKey in s ==> LapsedOnlyWhenFull(su.ip, su.ttlSeconds, MarkOf(su, s, r.ipKey).value, r)
    requires su.globalKey in s ==> LapsedOnlyWhenFull(su.whole, su.ttlSeconds, MarkOf(su, s, su.globalKey).value, r)
    ensures Check(su.(expiring := true), s, r) == Check(su.(expiring := false), s, r)
  {
    LookupUnobservable(su, s, r, r.ipKey);
    LookupUnobservable(su, s, r, su.globalKey);
  }

  /** Key expiry is unobservable over whole traces that keep pace: same replies, same store. */
  lemma {:induction false} ExpiryUnobservable(su: Setup, s: Store, trace: seq<Request>)
    requires Sane(su) && Bounded(su, s) && Separate(su, trace) && Paced(su, s, trace)
    ensures Run(su.(expiring := true), s, trace) == Run(su.(expiring := false), s, trace)
    decreases |trace|
  {
    if trace != [] {
      var r := trace[0];
      assert KeyPaced(su, trace, r.ipKey, MarkOf(su, s, r.ipKey));
      assert KeyPaced(su, trace, su.globalKey, MarkOf(su, s, su.globalKey));
      CheckUnobservable(su, s, r);
      var s1 := Check(su, s, r).0;
      assert Check(su, s, r) == Check(su.(expiring := true), s, r);
      CheckBounded(su, s, r);
      StillPaced(su, s, trace);
      ExpiryUnobservable(su, s1, trace[1..]);
    }
  }

  // ---------------------------------------------------------------- clocks that disagree

  /** Redis's clock is ahead of every caller's by between `offset` and `offset + skewMs`. */
  predicate OffsetsWithin(trace: seq<Request>, offset: int, skewMs: nat) {
    forall i :: 0 <= i < |trace| ==> offset <= trace[i].at - trace[i].now <= offset + skewMs
  }

  /** A key that outlives its own refill even when the clocks disagree by so much. */
  predicate OutlivesRefillBy(lim: Limits, ttlSeconds: nat, skewMs: nat) {
    Earned(PositivePart(1000 * ttlSeconds - skewMs), lim.rate) >= lim.capacity as real
  }

  /** What a deployment can check: clocks within `skewMs` of each other, and a key that outlives the refill by it. */
  lemma {:induction false} SkewIsPaced(su: Setup, trace: seq<Request>, key: string, last: Option<Mark>, offset: int, skewMs: nat)
    requires Sane(su) && OffsetsWithin(trace, offset, skewMs) && OutlivesRefillBy(LimitsOf(su, key), su.ttlSeconds, skewMs)
    requires last.Some? ==> last.value.at - last.value.now <= offset + skewMs && offset <= last.value.at - last.value.now
    ensures KeyPaced(su, trace, key, last)
    decreases |trace|
  {
    if trace != [] {
      var r, lim := trace[0], LimitsOf(su, key);
      assert OffsetsWithin(trace[1..], offset, skewMs);
      if !Touches(su, r, key) {
        SkewIsPaced(su, trace[1..], key, last, offset, skewMs);
      } else {
        SkewIsPaced(su, trace[1..], key, Some(Mark(r.now, r.at)), offset, skewMs);
        if last.Some? && r.at - last.value.at >= 1000 * su.ttlSeconds {
          EarnedMonotone(PositivePart(1000 * su.ttlSeconds - skewMs), PositivePart(r.now - last.value.now), lim.rate);
        }
      }
    }
  }

  // ---------------------------------------------------------------- the rate bound, keys expiring or not

  /** Total cost admitted on the bucket is at most its capacity plus the rate times the forward steps. */
  predicate WithinRate(su: Setup, trace: seq<Request>, key: string) {
    && |Run(su, map[], trace).1| == |trace|
    && Admitted(su, trace, Run(su, map[], trace).1, key) as real
       <= LimitsOf(su, key).capacity as real + Earned(ForwardSteps(su, trace, key, None), LimitsOf(su, key).rate)
  }

  /**
   * Rate bound, for an address bucket and for the global bucket alike, whatever
   * the caller's clock does and whatever the other buckets do: it is enough that this
   * bucket's key, if it expires, keeps pace.
   */
  lemma RateBound(su: Setup, trace: seq<Request>, key: string)
    requires Sane(su) && Separate(su, trace) && (su.expiring ==> KeyPaced(su, trace, key, None))
    ensures WithinRate(su, trace, key)
  {
    RunLength(su, map[], trace);
    SpendingBound(su, map[], trace, key);
  }

  /** Hence capacity + rate * elapsed for a nondecreasing clock. */
  lemma RateBoundElapsed(su: Setup, trace: seq<Request>, key: string)
    requires Sane(su) && Separate(su, trace) && (su.expiring ==> KeyPaced(su, trace, key, None)) && Forward(trace) && trace != []
    ensures |Run(su, map[], trace).1| == |trace| && trace[|trace| - 1].now >= trace[0].now
    ensures Admitted(su, trace, Run(su, map[], trace).1, key) as real
         <= LimitsOf(su, key).capacity as real
          + Earned(trace[|trace| - 1].now - trace[0].now, LimitsOf(su, key).rate)
  {
    RateBound(su, trace, key);
    ForwardIsElapsed(su, trace, key, None);
    EarnedMonotone(ForwardSteps(su, trace, key, None), trace[|trace| - 1].now - trace[0].now, LimitsOf(su, key).rate);
  }

  /** The rate bound for the expiring store under conditions a deployment can check. */
  lemma RateBoundUnderSkew(su: Setup, trace: seq<Request>, key: string, offset: int, skewMs: nat)
    requires Sane(su) && Separate(su, trace) && OffsetsWithin(trace, offset, skewMs)
    requires OutlivesRefillBy(LimitsOf(su, key), su.ttlSeconds, skewMs)
    ensures WithinRate(su, trace, key)
  {
    SkewIsPaced(su, trace, key, None, offset, skewMs);
    RateBound(su, trace, key);
  }

  // ---------------------------------------------------------------- exactly which lifetimes are long enough

  /** A deployment whose keys expire and in which `key` has the given limits and lifetime. */
  predicate Deploys(su: Setup, key: string, lim: Limits, ttlSeconds: nat) {
    Sane(su) && su.expiring && su.ttlSeconds == ttlSeconds && LimitsOf(su, key) == lim
  }

  const WHOLE_KEY := "global"

  function Twin(lim: Limits, ttlSeconds: nat, expiring: bool): Setup {
    Setup(lim, lim, WHOLE_KEY, ttlSeconds, expiring)
  }

  /** Two addresses spend everything, the second just when the global key has lapsed. */
  function SpendTwice(lim: Limits, ttlSeconds: nat, skewMs: nat): seq<Request> {
    [Request("a", 0, 0, lim.capacity), Request("b", 1000 * ttlSeconds - skewMs, 1000 * ttlSeconds, lim.capacity)]
  }

  lemma RunTwo(su: Setup, a: Request, b: Request)
    ensures var (s1, x) := Check(su, map[], a); Run(su, map[], [a, b]).1 == [x, Check(su, s1, b).1]
  {
    assert [a, b][1..] == [b] && [b][1..] == [];
    var s1 := Check(su, map[], a).0;
    assert Run(su, s1, [b]).1 == [Check(su, s1, b).1] + Run(su, Check(su, s1, b).0, []).1;
  }

  lemma FreshBucketIsFull(lim: Limits, now: int)
    requires lim.rate > 0.0
    ensures Refill(None, lim, now) == lim.capacity as real
  {
    RefillBounded(None, lim, now);
  }

  lemma FirstSpend(lim: Limits, ttlSeconds: nat, skewMs: nat, expiring: bool)
    requires lim.rate > 0.0
    ensures var su, r := Twin(lim, ttlSeconds, expiring), SpendTwice(lim, ttlSeconds, skewMs)[0];
      && Check(su, map[], r).1.allowed
      && Check(su, map[], r).0 == map["a" := Bucket(0.0, 0, 1000 * ttlSeconds), WHOLE_KEY := Bucket(0.0, 0, 1000 * ttlSeconds)]
  {
    FreshBucketIsFull(lim, 0);
    assert |WHOLE_KEY| != |"a"|;
  }

  lemma SecondSpend(lim: Limits, ttlSeconds: nat, skewMs: nat, expiring: bool)
    requires lim.rate > 0.0
    ensures var su, trace := Twin(lim, ttlSeconds, expiring), SpendTwice(lim, ttlSeconds, skewMs);
      Check(su, Check(su, map[], trace[0]).0, trace[1]).1.allowed <==>
        expiring || OutlivesRefillBy(lim, ttlSeconds, skewMs)
  {
    FirstSpend(lim, ttlSeconds, skewMs, expiring);
    FreshBucketIsFull(lim, 1000 * ttlSeconds - skewMs);
    assert |WHOLE_KEY| != |"b"| && "a" != "b";
  }

  lemma SpentTwice(lim: Limits, ttlSeconds: nat, skewMs: nat)
    requires lim.rate > 0.0 && !OutlivesRefillBy(lim, ttlSeconds, skewMs)
    ensures !WithinRate(Twin(lim, ttlSeconds, true), SpendTwice(lim, ttlSeconds, skewMs), WHOLE_KEY)
  {
    var su, trace := Twin(lim, ttlSeconds, true), SpendTwice(lim, ttlSeconds, skewMs);
    var replies := Run(su, map[], trace).1;
    FirstSpend(lim, ttlSeconds, skewMs, true);
    SecondSpend(lim, ttlSeconds, skewMs, true);
    RunTwo(su, trace[0], trace[1]);
    assert trace == [trace[0], trace[1]];
    assert trace[1..] == [trace[1]] && trace[1..][1..] == [] && replies[1..] == [replies[1]] && replies[1..][1..] == [];
    assert Admitted(su, trace[1..], replies[1..], WHOLE_KEY) == lim.capacity;
    assert ForwardSteps(su, trace[1..], WHOLE_KEY, Some(0)) == PositivePart(1000 * ttlSeconds - skewMs);
    EarnedNonNegative(PositivePart(1000 * ttlSeconds - skewMs), lim.rate);
  }

  lemma SpendTwiceWithin(lim: Limits, ttlSeconds: nat, skewMs: nat)
    ensures OffsetsWithin(SpendTwice(lim, ttlSeconds, skewMs), 0, skewMs)
    ensures Separate(Twin(lim, ttlSeconds, true), SpendTwice(lim, ttlSeconds, skewMs))
  {
    assert |WHOLE_KEY| == 6;
  }

  /**
   * Exactly the lifetimes that outlive the refill by the clocks' disagreement keep the
   * rate bound, over all deployments, traces and offsets.
   */
  lemma RateBoundExactly(lim: Limits, ttlSeconds: nat, skewMs: nat)
    requires lim.rate > 0.0
    ensures OutlivesRefillBy(lim, ttlSeconds, skewMs) <==>
      forall su: Setup, trace: seq<Request>, key: string, offset: int ::
        Deploys(su, key, lim, ttlSeconds) && Separate(su, trace) && OffsetsWithin(trace, offset, skewMs)
        ==> WithinRate(su, trace, key)
  {
    if OutlivesRefillBy(lim, ttlSeconds, skewMs) {
      forall su: Setup, trace: seq<Request>, key: string, offset: int
        | Deploys(su, key, lim, ttlSeconds) && Separate(su, trace) && OffsetsWithin(trace, offset, skewMs)
        ensures WithinRate(su, trace, key)
      {
        RateBoundUnderSkew(su, trace, key, offset, skewMs);
      }
    } else {
      var su, trace := Twin(lim, ttlSeconds, true), SpendTwice(lim, ttlSeconds, skewMs);
      SpendTwiceWithin(lim, ttlSeconds, skewMs);
      SpentTwice(lim, ttlSeconds, skewMs);
      assert Deploys(su, WHOLE_KEY, lim, ttlSeconds);
    }
  }

  lemma SkewIsPacedThroughout(su: Setup, trace: seq<Request>, offset: int, skewMs: nat)
    requires Sane(su) && OffsetsWithin(trace, offset, skewMs)
    requires OutlivesRefillBy(su.ip, su.ttlSeconds, skewMs) && OutlivesRefillBy(su.whole, su.ttlSeconds, skewMs)
    ensures Paced(su, map[], trace)
  {
    forall key ensures KeyPaced(su, trace, key, MarkOf(su, map[], key)) {
      SkewIsPaced(su, trace, key, None, offset, skewMs);
    }
  }

  /** With both buckets of one size, no reply shows that keys expire. */
  ghost predicate ExpiryHidden(lim: Limits, ttlSeconds: nat, globalKey: string, trace: seq<Request>) {
    Run(Setup(lim, lim, globalKey, ttlSeconds, true), map[], trace).1
    == Run(Setup(lim, lim, globalKey, ttlSeconds, false), map[], trace).1
  }

  lemma SecondSpendShows(lim: Limits, ttlSeconds: nat, skewMs: nat)
    requires lim.rate > 0.0 && !OutlivesRefillBy(lim, ttlSeconds, skewMs)
    ensures !ExpiryHidden(lim, ttlSeconds, WHOLE_KEY, SpendTwice(lim, ttlSeconds, skewMs))
  {
    var forgetful, keeping, trace := Twin(lim, ttlSeconds, true), Twin(lim, ttlSeconds, false), SpendTwice(lim, ttlSeconds, skewMs);
    SecondSpend(lim, ttlSeconds, skewMs, true);
    SecondSpend(lim, ttlSeconds, skewMs, false);
    RunTwo(forgetful, trace[0], trace[1]);
    RunTwo(keeping, trace[0], trace[1]);
    assert trace == [trace[0], trace[1]];
    assert Run(forgetful, map[], trace).1[1] != Run(keeping, map[], trace).1[1];
  }

  /** The same lifetimes are exactly those under which no trace shows that keys expire at all. */
  lemma ExpiryHiddenExactly(lim: Limits, ttlSeconds: nat, skewMs: nat)
    requires lim.rate > 0.0
    ensures OutlivesRefillBy(lim, ttlSeconds, skewMs) <==>
      forall globalKey: string, trace: seq<Request>, offset: int ::
        (forall i :: 0 <= i < |trace| ==> trace[i].ipKey != globalKey) && OffsetsWithin(trace, offset, skewMs)
        ==> ExpiryHidden(lim, ttlSeconds, globalKey, trace)
  {
    if OutlivesRefillBy(lim, ttlSeconds, skewMs) {
      forall globalKey: string, trace: seq<Request>, offset: int
        | (forall i :: 0 <= i < |trace| ==> trace[i].ipKey != globalKey) && OffsetsWithin(trace, offset, skewMs)
        ensures ExpiryHidden(lim, ttlSeconds, globalKey, trace)
      {
        var su := Setup(lim, lim, globalKey, ttlSeconds, true);
        SkewIsPacedThroughout(su, trace, offset, skewMs);
        ExpiryUnobservable(su, map[], trace);
        assert su.(expiring := true) == su;
      }
    } else {
      SpendTwiceWithin(lim, ttlSeconds, skewMs);
      SecondSpendShows(lim, ttlSeconds, skewMs);
    }
  }

  // ---------------------------------------------------------------- denied requests are invisible

  /** From time `t` on, nobody can tell the two stores apart. */
  ghost predicate SameFrom(su: Setup, s: Store, u: Store, t: int) {
    forall k, t' :: t <= t' ==> SameAt(su, s, u, k, t')
  }

  predicate SameAt(su: Setup, s: Store, u: Store, k: string, t: int) {
    Refill(Lookup(su, s, k, t), LimitsOf(su, k), t) == Refill(Lookup(su, u, k, t), LimitsOf(su, k), t)
  }

  ghost predicate WrittenBy(s: Store, t: int) {
    forall k :: k in s ==> s[k].ts <= t
  }

  /** Refilling in two legs is refilling in one: the cap composes. */
  lemma RefillComposes(lim: Limits, b: Option<Bucket>, now: int, later: int, expiresAt: int)
    requires lim.rate > 0.0 && now <= later && (b.Some? ==> b.value.ts <= now)
    ensures Refill(Some(Bucket(Refill(b, lim, now), now, expiresAt)), lim, later) == Refill(b, lim, later)
  {
    EarnedNonNegative(later - now, lim.rate);
    if b.Some? { EarnedAdds(now - b.value.ts, later - now, lim.rate); }
  }

  /** A denied request leaves a store that behaves as the old one. */
  lemma DeniedIsInvisible(su: Setup, s: Store, r: Request)
    requires Sane(su) && !su.expiring && r.ipKey != su.globalKey && WrittenBy(s, r.now)
    requires !Check(su, s, r).1.allowed
    ensures SameFrom(su, Check(su, s, r).0, s, r.now)
  {
    var t := Check(su, s, r).0;
    forall k, later | r.now <= later ensures SameAt(su, t, s, k, later) {
      if k == r.ipKey || k == su.globalKey {
        RefillComposes(LimitsOf(su, k), Lookup(su, s, k, r.at), r.now, later, r.at + 1000 * su.ttlSeconds);
      }
    }
  }

  lemma SameStep(su: Setup, s: Store, u: Store, r: Request)
    requires !su.expiring && SameFrom(su, s, u, r.now) && r.ipKey != su.globalKey
    ensures Check(su, s, r).1 == Check(su, u, r).1
    ensures SameFrom(su, Check(su, s, r).0, Check(su, u, r).0, r.now)
  {
    assert SameAt(su, s, u, r.ipKey, r.now) && SameAt(su, s, u, su.globalKey, r.now);
    var s1, u1 := Check(su, s, r).0, Check(su, u, r).0;
    forall k, later | r.now <= later ensures SameAt(su, s1, u1, k, later) {
      assert SameAt(su, s, u, k, later);
    }
  }

  lemma SameChain(su: Setup, s: Store, u: Store, v: Store, t: int, now: int)
    requires t <= now && SameFrom(su, s, u, now) && SameFrom(su, u, v, t)
    ensures SameFrom(su, s, v, now)
  {
    forall k, later | now <= later ensures SameAt(su, s, v, k, later) {
      assert SameAt(su, s, u, k, later) && SameAt(su, u, v, k, later);
    }
  }

  function Keep<T>(xs: seq<T>, mask: seq<bool>): seq<T>
    requires |xs| == |mask|
  {
    if xs == [] then [] else (if mask[0] then [xs[0]] else []) + Keep(xs[1..], mask[1..])
  }

  /** Everything the mask drops was denied. */
  predicate DropsOnlyDenied(replies: seq<Reply>, mask: seq<bool>) {
    && |replies| == |mask|
    && forall i :: 0 <= i < |mask| && !mask[i] ==> !replies[i].allowed
  }

  lemma {:induction false} DroppingKeepsReplies(su: Setup, s: Store, u: Store, trace: seq<Request>, mask: seq<bool>, t: int)
    requires Sane(su) && !su.expiring && Separate(su, trace) && Forward(trace) && |mask| == |trace|
    requires DropsOnlyDenied(Run(su, s, trace).1, mask)
    requires SameFrom(su, s, u, t) && WrittenBy(s, t) && (trace != [] ==> t <= trace[0].now)
    ensures Run(su, u, Keep(trace, mask)).1 == Keep(Run(su, s, trace).1, mask)
    decreases |trace|
  {
    if trace != [] {
      var r := trace[0];
      var s1, u1 := Check(su, s, r).0, Check(su, u, r).0;
      var tail := Run(su, s1, trace[1..]).1;
      assert Run(su, s, trace).1 == [Check(su, s, r).1] + tail;
      assert SameFrom(su, s, u, r.now);
      assert WrittenBy(s1, r.now);
      assert DropsOnlyDenied(tail, mask[1..]) by {
        forall i | 0 <= i < |mask[1..]| && !mask[1..][i] ensures !tail[i].allowed {
          assert !Run(su, s, trace).1[i + 1].allowed;
        }
      }
      SameStep(su, s, u, r);
      if mask[0] {
        DroppingKeepsReplies(su, s1, u1, trace[1..], mask[1..], r.now);
        assert Keep(trace, mask) == [r] + Keep(trace[1..], mask[1..]);
      } else {
        assert !Run(su, s, trace).1[0].allowed;
        DeniedIsInvisible(su, s, r);
        SameChain(su, s1, s, u, t, r.now);
        DroppingKeepsReplies(su, s1, u, trace[1..], mask[1..], r.now);
        assert Keep(trace, mask) == Keep(trace[1..], mask[1..]);
      }
    }
  }

  lemma {:induction false} KeepIn<T>(xs: seq<T>, mask: seq<bool>, i: nat)
    requires |xs| == |mask| && i < |Keep(xs, mask)|
    ensures Keep(xs, mask)[i] in xs
  {
    var first := if mask[0] then [xs[0]] else [];
    if i >= |first| {
      KeepIn(xs[1..], mask[1..], i - |first|);
    }
  }

  /**
   * With nondecreasing timestamps, deleting any subset of the denied requests
   * leaves every other decision and both remaining-token values unchanged. Expiring keys
   * must keep pace with and without the deleted requests.
   */
  lemma DeniedRequestsInvisible(su: Setup, trace: seq<Request>, mask: seq<bool>)
    requires Sane(su) && Separate(su, trace) && Forward(trace) && |mask| == |trace|
    requires su.expiring ==> Paced(su, map[], trace) && Paced(su, map[], Keep(trace, mask))
    requires DropsOnlyDenied(Run(su, map[], trace).1, mask)
    ensures Run(su, map[], Keep(trace, mask)).1 == Keep(Run(su, map[], trace).1, mask)
  {
    var keeping := su.(expiring := false);
    if su.expiring {
      assert su == su.(expiring := true);
      ExpiryUnobservable(su, map[], trace);
      forall i | 0 <= i < |Keep(trace, mask)| ensures Keep(trace, mask)[i].ipKey != su.globalKey {
        KeepIn(trace, mask, i);
      }
      ExpiryUnobservable(su, map[], Keep(trace, mask));
    }
    DroppingKeepsReplies(keeping, map[], map[], trace, mask, if trace == [] then 0 else trace[0].now);
  }

  /** The same under conditions a deployment can check. */
  lemma DeniedRequestsInvisibleUnderSkew(su: Setup, trace: seq<Request>, mask: seq<bool>, offset: int, skewMs: nat)
    requires Sane(su) && Separate(su, trace) && Forward(trace) && |mask| == |trace| && OffsetsWithin(trace, offset, skewMs)
    requires OutlivesRefillBy(su.ip, su.ttlSeconds, skewMs) && OutlivesRefillBy(su.whole, su.ttlSeconds, skewMs)
    requires DropsOnlyDenied(Run(su, map[], trace).1, mask)
    ensures Run(su, map[], Keep(trace, mask)).1 == Keep(Run(su, map[], trace).1, mask)
  {
    var kept := Keep(trace, mask);
    forall i | 0 <= i < |kept| ensures offset <= kept[i].at - kept[i].now <= offset + skewMs {
      KeepIn(trace, mask, i);
    }
    SkewIsPacedThroughout(su, trace, offset, skewMs);
    SkewIsPacedThroughout(su, kept, offset, skewMs);
    DeniedRequestsInvisible(su, trace, mask);
  }

  // ---------------------------------------------------------------- Retry-After

  function Ceil(x: real): int { -((-x).Floor) }

  /** Seconds until a bucket with `remaining` tokens can pay `cost`, rounded up. */
  function SecondsUntilAvailable(remaining: real, rate: real, cost: nat): int
    requires rate > 0.0
  {
    var deficit := cost as real - remaining;
    if deficit <= 0.0 then 0 else Ceil(deficit / rate)
  }

  lemma CeilLeast(x: real, s: int)
    ensures s as real >= x <==> s >= Ceil(x)
  {
  }

  lemma SecondsPay(remaining: real, rate: real, cost: nat, s: nat)
    requires rate > 0.0
    ensures remaining + s as real * rate >= cost as real <==> s >= SecondsUntilAvailable(remaining, rate, cost)
  {
    var deficit := cost as real - remaining;
    if deficit <= 0.0 {
      assert s as real * rate >= 0.0;
    } else {
      CeilLeast(deficit / rate, s);
      assert deficit / rate * rate == deficit;
      if s as real >= deficit / rate {
        assert s as real * rate >= deficit / rate * rate;
      } else {
        assert s as real * rate < deficit / rate * rate;
      }
    }
  }

  lemma WaitingPays(b: Bucket, lim: Limits, cost: nat, wait: nat)
    requires lim.rate > 0.0 && b.tokens < cost as real
    ensures var after := SecondsUntilAvailable(b.tokens, lim.rate, cost);
      && after >= 1
      && (cost <= lim.capacity ==> (Refill(Some(b), lim, b.ts + 1000 * wait) >= cost as real <==> wait >= after))
      && (cost > lim.capacity ==> Refill(Some(b), lim, b.ts + 1000 * wait) < cost as real)
  {
    SecondsPay(b.tokens, lim.rate, cost, wait);
    SecondsPay(b.tokens, lim.rate, cost, 0);
    assert (1000 * wait) as real / 1000.0 == wait as real;
  }

  function DenyingKey(su: Setup, r: Request, scope: Scope): string {
    if scope.Ip? then r.ipKey else su.globalKey
  }

  /**
   * The reported Retry-After is the least whole number of seconds after which the
   * denying bucket can pay, when nothing else debits it; one second less always
   * fails, and a cost above the capacity is never payable.
   */
  lemma RetryAfterIsLeast(su: Setup, s: Store, r: Request, scope: Scope, wait: nat)
    requires Sane(su) && Bounded(su, s) && r.ipKey != su.globalKey
    requires Check(su, s, r).1.limitedBy == Some(scope)
    ensures var key := DenyingKey(su, r, scope);
            var lim := LimitsOf(su, key);
            var b := Check(su, s, r).0[key];
            var after := SecondsUntilAvailable(b.tokens, lim.rate, r.cost);
      && after >= 1
      && (r.cost <= lim.capacity ==>
            (Refill(Some(b), lim, r.now + 1000 * wait) >= r.cost as real <==> wait >= after))
      && (r.cost > lim.capacity ==> Refill(Some(b), lim, r.now + 1000 * wait) < r.cost as real)
  {
    var key := DenyingKey(su, r, scope);
    var lim := LimitsOf(su, key);
    var b := Check(su, s, r).0[key];
    assert b.ts == r.now && b.tokens < r.cost as real;
    WaitingPays(b, lim, r.cost, wait);
  }

  /** No request of the trace takes anything from the bucket. */
  predicate NoDebit(su: Setup, trace: seq<Request>, replies: seq<Reply>, key: string) {
    && |replies| == |trace|
    && forall i :: 0 <= i < |trace| && Touches(su, trace[i], key) ==> !replies[i].allowed
  }

  /** One denied request on the bucket. */
  lemma DeniedRewrites(su: Setup, s: Store, r: Request, key: string, later: int)
    requires Sane(su) && Bounded(su, s) && r.ipKey != su.globalKey && Touches(su, r, key) && key in s
    requires su.expiring ==> LapsedOnlyWhenFull(LimitsOf(su, key), su.ttlSeconds, MarkOf(su, s, key).value, r)
    requires !Check(su, s, r).1.allowed && s[key].ts <= r.now <= later
    ensures Refill(Some(Check(su, s, r).0[key]), LimitsOf(su, key), later) == Refill(Some(s[key]), LimitsOf(su, key), later)
  {
    LapseUnseen(su, s, r, key);
    RefillComposes(LimitsOf(su, key), Some(s[key]), r.now, later, r.at + 1000 * su.ttlSeconds);
  }

  /** Denied requests rewrite the bucket, but not what a later request finds in it. */
  lemma {:induction false} DeniedKeepRefill(su: Setup, s: Store, trace: seq<Request>, last: Request, key: string)
    requires Sane(su) && Bounded(su, s) && Separate(su, trace) && Touches(su, last, key) && key in s
    requires su.expiring ==> KeyPaced(su, trace + [last], key, MarkOf(su, s, key))
    requires NoDebit(su, trace, Run(su, s, trace).1, key) && Forward(trace)
    requires s[key].ts <= last.now && forall i :: 0 <= i < |trace| ==> s[key].ts <= trace[i].now <= last.now
    ensures Refill(Lookup(su, Run(su, s, trace).0, key, last.at), LimitsOf(su, key), last.now)
         == Refill(Some(s[key]), LimitsOf(su, key), last.now)
    decreases |trace|
  {
    if trace == [] {
      assert trace + [last] == [last];
      LapseUnseen(su, s, last, key);
    } else {
      var r := trace[0];
      var s1 := Check(su, s, r).0;
      var tail := Run(su, s1, trace[1..]).1;
      assert Run(su, s, trace).1 == [Check(su, s, r).1] + tail;
      assert NoDebit(su, trace[1..], tail, key) by {
        forall i | 0 <= i < |trace[1..]| && Touches(su, trace[1..][i], key) ensures !tail[i].allowed {
          assert !Run(su, s, trace).1[i + 1].allowed;
        }
      }
      assert (trace + [last])[0] == r && (trace + [last])[1..] == trace[1..] + [last];
      MarkAfter(su, s, r, key);
      CheckBounded(su, s, r);
      if Touches(su, r, key) {
        assert !Run(su, s, trace).1[0].allowed;
        DeniedRewrites(su, s, r, key, last.now);
      }
      DeniedKeepRefill(su, s1, trace[1..], last, key);
    }
  }

  /**
   * The same over whole traces: after the denial any number of requests may come, all
   * denied as far as they touch the bucket, and its key may expire if it keeps pace. A
   * later request on the bucket finds enough exactly when the reported number of seconds
   * has passed.
   */
  lemma RetryAfterHolds(su: Setup, s: Store, r: Request, scope: Scope, between: seq<Request>, last: Request, wait: nat)
    requires Sane(su) && Bounded(su, s) && Check(su, s, r).1.limitedBy == Some(scope)
    requires Separate(su, [r] + between) && Forward([r] + (between + [last])) && last.now == r.now + 1000 * wait
    requires Touches(su, last, DenyingKey(su, r, scope))
    requires NoDebit(su, between, Run(su, Check(su, s, r).0, between).1, DenyingKey(su, r, scope))
    requires su.expiring ==> KeyPaced(su, between + [last], DenyingKey(su, r, scope), Some(Mark(r.now, r.at)))
    ensures var key := DenyingKey(su, r, scope);
            var lim := LimitsOf(su, key);
            var s1 := Check(su, s, r).0;
            var found := Refill(Lookup(su, Run(su, s1, between).0, key, last.at), lim, last.now);
      && (r.cost <= lim.capacity ==>
            (found >= r.cost as real <==> wait >= SecondsUntilAvailable(s1[key].tokens, lim.rate, r.cost)))
      && (r.cost > lim.capacity ==> found < r.cost as real)
  {
    var key, whole := DenyingKey(su, r, scope), [r] + (between + [last]);
    var s1 := Check(su, s, r).0;
    assert ([r] + between)[0] == r;
    CheckBounded(su, s, r);
    MarkAfter(su, s, r, key);
    assert Separate(su, between) by { assert forall i :: 0 <= i < |between| ==> between[i] == ([r] + between)[i + 1]; }
    forall i | 0 <= i < |between| ensures between[i] == whole[i + 1] && r.now <= between[i].now <= last.now {
      assert whole[0].now <= whole[i + 1].now <= whole[|whole| - 1].now;
    }
    assert Forward(between);
    DeniedKeepRefill(su, s1, between, last, key);
    RetryAfterIsLeast(su, s, r, scope, wait);
  }

  // ---------------------------------------------------------------- the script

  /** The Redis side: the script reassigns its token variables and writes both hashes. */
  class Redis {
    var hashes: Store

    method CheckTokenBuckets(su: Setup, r: Request) returns (reply: Reply)
      requires su.expiring
      modifies this
      ensures (hashes, reply) == Check(su, old(hashes), r)
    {
      var ipTokens := RefillKey(su, r.ipKey, su.ip, r);
      var globalTokens := RefillKey(su, su.globalKey, su.whole, r);
      var cost := r.cost as real;
      var allowed, limitedBy := true, None;
      if ipTokens < cost {
        allowed, limitedBy := false, Some(Ip);
      } else if globalTokens < cost {
        allowed, limitedBy := false, Some(Global);
      }
      if allowed {
        ipTokens := ipTokens - cost;
        globalTokens := globalTokens - cost;
      }
      hashes := hashes[r.ipKey := Bucket(ipTokens, r.now, r.at + 1000 * su.ttlSeconds)];
      hashes := hashes[su.globalKey := Bucket(globalTokens, r.now, r.at + 1000 * su.ttlSeconds)];
      reply := Reply(allowed, limitedBy, ipTokens, globalTokens);
    }

    method RefillKey(su: Setup, key: string, lim: Limits, r: Request) returns (tokens: real)
      requires su.expiring
      ensures tokens == Refill(Lookup(su, hashes, key, r.at), lim, r.now)
    {
      var ts := r.now;
      tokens := lim.capacity as real;
      if key in hashes && r.at < hashes[key].expiresAt {
        tokens, ts := hashes[key].tokens, hashes[key].ts;
      }
      var elapsed := if r.now - ts > 0 then r.now - ts else 0;
      tokens := Min(lim.capacity as real, tokens + (elapsed as real / 1000.0) * lim.rate);
    }
  }
}
