/**
 * The debouncer run by one worker, in the source's own imperative form, tied
 * step for step to the concurrent protocol, and the exact number of store visits
 * a burst of signals of one component costs.
 */
module DebounceSolo {
  import opened Options
  import opened DebounceProtocol

  /** Worker 0 advances `n` times; advancing an idle worker does nothing. */
  function Drive(cfg: Config, s: State, n: nat): State
    decreases n
  {
    if n == 0 then s else Drive(cfg, Step(cfg, s, Advance(0)), n - 1)
  }

  /** Advances that are always enough for one uninterrupted resolve. */
  const LONGEST_RESOLVE := 10

  function Repeat(a: Action, n: nat): seq<Action> {
    if n == 0 then [] else [a] + Repeat(a, n - 1)
  }

  lemma {:induction false} DriveIsRun(cfg: Config, s: State, n: nat)
    ensures Drive(cfg, s, n) == Run(cfg, s, Repeat(Advance(0), n))
    decreases n
  {
    if n > 0 {
      DriveIsRun(cfg, Step(cfg, s, Advance(0)), n - 1);
      assert Repeat(Advance(0), n)[1..] == Repeat(Advance(0), n - 1);
    }
  }

  predicate Ready(s: State, c: Component) {
    |s.workers| > 0 && s.workers[0].phase.Idle? && c !in s.locks
  }

  function Done(s: State, c: Component, link: Link): State
    requires |s.workers| > 0
  {
    s.(results := s.results + [Result(0, c, link)], workers := s.workers[0 := Worker(c, Idle)])
  }

  /** What the fast path does as one step. */
  function FastOutcome(s: State, c: Component): State
    requires c in s.sessions && s.sessions[c].Seeded? && |s.workers| > 0
  {
    var h := s.sessions[c];
    Done(s.(sessions := s.sessions[c := h.(count := h.count + 1)], seedings := Serve(s.seedings, h.gen)),
         c, Link(h.item, false))
  }

  /** What the store path does as one step. */
  function StoreOutcome(s: State, c: Component): State
    requires |s.workers| > 0
  {
    var found := FirstActive(s.items, c);
    var link := if found.Some? then Link(found.value, false) else Link(|s.items|, true);
    Done(s.(items := if found.Some? then s.items else s.items + [Item(c, false, 0)],
            sessions := s.sessions[c := Seeded(link.item, 0, s.clock, |s.seedings|)],
            seedings := s.seedings + [Seeding(c, 0)],
            storeVisits := s.storeVisits + 1),
         c, link)
  }

  /** What one undisturbed resolve by worker 0 does. */
  function ResolveAlone(cfg: Config, s: State, c: Component): State
    requires |s.workers| > 0
  {
    if Trusted(cfg, Fetch(s, c), s.clock) then FastOutcome(s, c) else StoreOutcome(s, c)
  }

  lemma FastPath(cfg: Config, s: State, c: Component, n: nat)
    requires Ready(s, c) && Trusted(cfg, Fetch(s, c), s.clock) && n >= 4
    ensures Drive(cfg, Step(cfg, s, Start(0, c)), n) == FastOutcome(s, c)
  {
    var h := s.sessions[c];
    var s1 := Goto(s.(workers := s.workers[0 := Worker(c, ReadSession)]), 0, JudgeSession(Some(h)));
    var s2 := Goto(s1, 0, Bump(h.item, h.gen));
    var t := FastOutcome(s, c);
    IdleStays(cfg, t, n - 4);
    assert Step(cfg, Step(cfg, s, Start(0, c)), Advance(0)) == s1;
    assert Step(cfg, s1, Advance(0)) == s2;
    assert Step(cfg, Step(cfg, s2, Advance(0)), Advance(0)) == t;
    Unroll4(cfg, Step(cfg, s, Start(0, c)), n);
  }

  lemma Unroll4(cfg: Config, s: State, n: nat)
    requires n >= 4
    ensures Drive(cfg, s, n) ==
            Drive(cfg, Step(cfg, Step(cfg, Step(cfg, Step(cfg, s, Advance(0)), Advance(0)), Advance(0)), Advance(0)), n - 4)
  {
    var s1 := Step(cfg, s, Advance(0));
    var s2 := Step(cfg, s1, Advance(0));
    var s3 := Step(cfg, s2, Advance(0));
    assert Drive(cfg, s, n) == Drive(cfg, s1, n - 1);
    assert Drive(cfg, s1, n - 1) == Drive(cfg, s2, n - 2);
    assert Drive(cfg, s2, n - 2) == Drive(cfg, s3, n - 3);
  }

  lemma {:induction false} IdleStays(cfg: Config, s: State, n: nat)
    requires |s.workers| > 0 && s.workers[0].phase.Idle?
    ensures Drive(cfg, s, n) == s
    decreases n
  {
    if n > 0 { IdleStays(cfg, s, n - 1); }
  }

  /** From the read of an untrusted hash to standing before the store with the lock. */
  lemma ToStore(cfg: Config, s: State, c: Component, n: nat)
    requires Ready(s, c) && !Trusted(cfg, Fetch(s, c), s.clock) && n >= 3
    ensures var t := s.(locks := s.locks + {c}, workers := s.workers[0 := Worker(c, Find(true))]);
            Drive(cfg, Step(cfg, s, Start(0, c)), n) == Drive(cfg, t, n - 3)
  {
    var s0 := Step(cfg, s, Start(0, c));
    var s1 := Step(cfg, s0, Advance(0));
    var s2 := Step(cfg, s1, Advance(0));
    var s3 := Step(cfg, s2, Advance(0));
    assert s1 == s.(workers := s.workers[0 := Worker(c, JudgeSession(Fetch(s, c)))]);
    assert s2 == s.(workers := s.workers[0 := Worker(c, TryLock)]);
    assert s3 == s.(locks := s.locks + {c}, workers := s.workers[0 := Worker(c, Find(true))]);
    assert Drive(cfg, s0, n) == Drive(cfg, s1, n - 1);
    assert Drive(cfg, s1, n - 1) == Drive(cfg, s2, n - 2);
  }

  /** From a link found or created to the returned result: seed, expire, unlock, return. */
  lemma SeedAndReturn(cfg: Config, s: State, c: Component, link: Link, n: nat)
    requires |s.workers| > 0 && s.workers[0] == Worker(c, StampSeed(true, link)) && n >= 5
    ensures Drive(cfg, s, n) ==
            Done(s.(sessions := s.sessions[c := Seeded(link.item, 0, s.clock, |s.seedings|)],
                    seedings := s.seedings + [Seeding(c, 0)],
                    locks := s.locks - {c}), c, link)
  {
    var s1 := Goto(s, 0, WriteSeed(true, link, s.clock));
    var s2 := Goto(s.(sessions := s.sessions[c := Seeded(link.item, 0, s.clock, |s.seedings|)],
                      seedings := s.seedings + [Seeding(c, 0)]), 0, ExpireSeed(true, link));
    assert Step(cfg, s, Advance(0)) == s1;
    assert Step(cfg, s1, Advance(0)) == s2;
    var s3 := Goto(s2, 0, Unlock(Some(link)));
    var s4 := Goto(s2.(locks := s.locks - {c}), 0, Return(link));
    assert Step(cfg, s2, Advance(0)) == s3;
    assert Step(cfg, s3, Advance(0)) == s4;
    Unroll4(cfg, s, n);
    var t := Step(cfg, s4, Advance(0));
    assert t == Done(s.(sessions := s2.sessions, seedings := s2.seedings, locks := s.locks - {c}), c, link);
    IdleStays(cfg, t, n - 5);
  }

  lemma StorePath(cfg: Config, s: State, c: Component, n: nat)
    requires Ready(s, c) && !Trusted(cfg, Fetch(s, c), s.clock) && n >= LONGEST_RESOLVE
    ensures Drive(cfg, Step(cfg, s, Start(0, c)), n) == StoreOutcome(s, c)
  {
    ToStore(cfg, s, c, n);
    var t := s.(locks := s.locks + {c}, workers := s.workers[0 := Worker(c, Find(true))]);
    var found := FirstActive(s.items, c);
    var t1 := Step(cfg, t, Advance(0));
    assert Drive(cfg, t, n - 3) == Drive(cfg, t1, n - 4);
    assert t.locks - {c} == s.locks;
    if found.Some? {
      SeedAndReturn(cfg, t1, c, Link(found.value, false), n - 4);
    } else {
      var t2 := Step(cfg, t1, Advance(0));
      assert t2.workers[0] == Worker(c, StampSeed(true, Link(|s.items|, true)));
      SeedAndReturn(cfg, t2, c, Link(|s.items|, true), n - 5);
    }
  }

  /** The undisturbed resolve is one of the interleavings of the protocol. */
  lemma ResolveAloneIsRun(cfg: Config, s: State, c: Component, n: nat)
    requires Ready(s, c) && n >= LONGEST_RESOLVE
    ensures Run(cfg, s, [Start(0, c)] + Repeat(Advance(0), n)) == ResolveAlone(cfg, s, c)
    ensures Ready(ResolveAlone(cfg, s, c), c)
  {
    var s0 := Step(cfg, s, Start(0, c));
    DriveIsRun(cfg, s0, n);
    assert ([Start(0, c)] + Repeat(Advance(0), n))[1..] == Repeat(Advance(0), n);
    if Trusted(cfg, Fetch(s, c), s.clock) { FastPath(cfg, s, c, n); } else { StorePath(cfg, s, c, n); }
  }

  /** The session of `c` may be used at the present time. */
  predicate Usable(cfg: Config, s: State, c: Component) {
    && c in s.sessions && s.sessions[c].Seeded?
    && s.sessions[c].count < cfg.threshold && s.clock - s.sessions[c].startedAt < cfg.windowMs
  }

  /**
   * What the undisturbed resolve answers and changes. A session that is not seeded, has
   * served its threshold or was stamped a window ago or more always costs a store visit.
   */
  lemma ResolveAloneExactly(cfg: Config, s: State, c: Component)
    requires |s.workers| > 0
    ensures var t := ResolveAlone(cfg, s, c);
      && |t.results| == |s.results| + 1 && t.clock == s.clock && t.locks == s.locks
      && var link := t.results[|s.results|].link;
         && t.results == s.results + [Result(0, c, link)]
         && (forall d :: d != c ==> (d in t.sessions <==> d in s.sessions) && (d in s.sessions ==> t.sessions[d] == s.sessions[d]))
         && c in t.sessions && t.sessions[c].Seeded? && t.sessions[c].item == link.item
         && (Usable(cfg, s, c) ==>
               && t.storeVisits == s.storeVisits && t.items == s.items && link == Link(s.sessions[c].item, false)
               && t.sessions[c].count == s.sessions[c].count + 1 && t.sessions[c].startedAt == s.sessions[c].startedAt)
         && (!Usable(cfg, s, c) ==>
               && t.storeVisits == s.storeVisits + 1 && IsActive(t.items, c, link.item)
               && (link.created <==> forall id: ItemId :: !IsActive(s.items, c, id))
               && t.items == (if link.created then s.items + [Item(c, false, 0)] else s.items)
               && t.sessions[c].count == 0 && t.sessions[c].startedAt == s.clock)
  {
  }

  /** The same state some time later. */
  function Later(s: State, ms: nat): State { s.(clock := s.clock + ms) }

  /** Worker 0 starts, is refused the lock, and goes on with `n` more awaits once the waiting time is over. */
  function WaitOut(cfg: Config, s: State, c: Component, n: nat): State {
    Drive(cfg, Step(cfg, Drive(cfg, Step(cfg, s, Start(0, c)), 3), Tick(cfg.lockWaitTimeoutMs)), n)
  }

  lemma Barred(cfg: Config, s: State, c: Component)
    requires |s.workers| > 0 && s.workers[0].phase.Idle? && c in s.locks && !Usable(cfg, s, c)
    ensures Drive(cfg, Step(cfg, s, Start(0, c)), 3)
         == s.(workers := s.workers[0 := Worker(c, PollCheck(s.clock + cfg.lockWaitTimeoutMs))])
  {
    var s0 := Step(cfg, s, Start(0, c));
    var s1 := Step(cfg, s0, Advance(0));
    var s2 := Step(cfg, s1, Advance(0));
    assert s1 == s.(workers := s.workers[0 := Worker(c, JudgeSession(Fetch(s, c)))]);
    assert s2 == s.(workers := s.workers[0 := Worker(c, TryLock)]);
    assert Drive(cfg, s0, 3) == Drive(cfg, s1, 2) == Drive(cfg, s2, 1) == Drive(cfg, Step(cfg, s2, Advance(0)), 0);
  }

  /** The same as `SeedAndReturn` for a worker without the lock. */
  lemma SeedWithoutLock(cfg: Config, s: State, c: Component, link: Link, n: nat)
    requires |s.workers| > 0 && s.workers[0] == Worker(c, StampSeed(false, link)) && n >= 4
    ensures Drive(cfg, s, n) ==
            Done(s.(sessions := s.sessions[c := Seeded(link.item, 0, s.clock, |s.seedings|)],
                    seedings := s.seedings + [Seeding(c, 0)]), c, link)
  {
    var s1 := Goto(s, 0, WriteSeed(false, link, s.clock));
    var s2 := Goto(s.(sessions := s.sessions[c := Seeded(link.item, 0, s.clock, |s.seedings|)],
                      seedings := s.seedings + [Seeding(c, 0)]), 0, ExpireSeed(false, link));
    var s3 := Goto(s2, 0, Return(link));
    var t := Step(cfg, s3, Advance(0));
    assert Step(cfg, s, Advance(0)) == s1;
    assert Step(cfg, s1, Advance(0)) == s2;
    assert Step(cfg, s2, Advance(0)) == s3;
    Unroll4(cfg, s, n);
    IdleStays(cfg, t, n - 4);
  }

  /** Who is refused the lock and sees no session gives up once the waiting time is over, and resolves from the store. */
  lemma WaitingEnds(cfg: Config, s: State, c: Component, n: nat)
    requires |s.workers| > 0 && s.workers[0].phase.Idle? && c in s.locks && !Usable(cfg, s, c) && n >= LONGEST_RESOLVE
    ensures WaitOut(cfg, s, c, n) == StoreOutcome(Later(s, cfg.lockWaitTimeoutMs), c)
  {
    Barred(cfg, s, c);
    var late := Later(s, cfg.lockWaitTimeoutMs);
    var t := late.(workers := s.workers[0 := Worker(c, PollCheck(s.clock + cfg.lockWaitTimeoutMs))]);
    var t1 := late.(workers := s.workers[0 := Worker(c, Find(false))]);
    assert Step(cfg, t, Advance(0)) == t1;
    assert Drive(cfg, t, n) == Drive(cfg, t1, n - 1);
    var found := FirstActive(s.items, c);
    var t2 := Step(cfg, t1, Advance(0));
    assert Drive(cfg, t1, n - 1) == Drive(cfg, t2, n - 2);
    if found.Some? {
      SeedWithoutLock(cfg, t2, c, Link(found.value, false), n - 2);
    } else {
      var t3 := Step(cfg, t2, Advance(0));
      assert Drive(cfg, t2, n - 2) == Drive(cfg, t3, n - 3);
      SeedWithoutLock(cfg, t3, c, Link(|s.items|, true), n - 3);
    }
  }

  /** Who finds a usable session while waiting takes its item, and the store is not asked. */
  lemma WaiterTakesSession(cfg: Config, s: State, c: Component, deadline: int, n: nat)
    requires |s.workers| > 0 && s.workers[0] == Worker(c, PollCheck(deadline)) && s.clock < deadline && Usable(cfg, s, c) && n >= 5
    ensures Drive(cfg, s, n) == FastOutcome(s, c)
  {
    var h := s.sessions[c];
    var s1 := Goto(s, 0, PollRead(deadline));
    var s2 := Goto(s, 0, PollJudge(deadline, Some(h)));
    var s3 := Goto(s, 0, Bump(h.item, h.gen));
    assert Step(cfg, s, Advance(0)) == s1 && Step(cfg, s1, Advance(0)) == s2 && Step(cfg, s2, Advance(0)) == s3;
    Unroll4(cfg, s, n);
    var s4 := Step(cfg, s3, Advance(0));
    var t := FastOutcome(s, c);
    assert Step(cfg, s4, Advance(0)) == t;
    assert Drive(cfg, s4, n - 4) == Drive(cfg, t, n - 5);
    IdleStays(cfg, t, n - 5);
  }

  /** Who loses the race for the insert links to the winner's item, claims no creation and adds no row. */
  lemma LoserLinksToWinner(cfg: Config, s: State, c: Component, holds: bool, attempt: nat, n: nat)
    requires |s.workers| > 0 && s.workers[0] == Worker(c, Insert(holds, attempt)) && n >= 7
    requires exists id: ItemId :: IsActive(s.items, c, id)
    ensures var t := Drive(cfg, s, n);
      && t.items == s.items && |t.workers| > 0 && t.workers[0].phase.Idle?
      && |t.results| == |s.results| + 1 && var r := t.results[|s.results|];
         && t.results == s.results + [r] && r.worker == 0 && r.component == c
         && IsActive(s.items, c, r.link.item) && !r.link.created
         && t.sessions == s.sessions[c := Seeded(r.link.item, 0, s.clock, |s.seedings|)]
         && t.locks == if holds then s.locks - {c} else s.locks
  {
    var link := Link(FirstActive(s.items, c).value, false);
    var s1 := Goto(s, 0, FindWinner(holds));
    var s2 := Goto(s, 0, StampSeed(holds, link));
    assert Step(cfg, s, Advance(0)) == s1 && Step(cfg, s1, Advance(0)) == s2;
    assert Drive(cfg, s, n) == Drive(cfg, s1, n - 1) == Drive(cfg, s2, n - 2);
    if holds { SeedAndReturn(cfg, s2, c, link, n - 2); } else { SeedWithoutLock(cfg, s2, c, link, n - 2); }
  }

  /** If the winner's item has been closed meanwhile, the resolve fails and gives its lock back. */
  lemma WinnerGone(cfg: Config, s: State, c: Component, holds: bool)
    requires |s.workers| > 0 && s.workers[0] == Worker(c, FindWinner(holds))
    requires forall id: ItemId :: !IsActive(s.items, c, id)
    ensures var t := Drive(cfg, s, 2);
      && t.results == s.results && t.items == s.items && |t.workers| > 0 && t.workers[0].phase.Idle?
      && t.locks == if holds then s.locks - {c} else s.locks
  {
    var s1 := Step(cfg, s, Advance(0));
    assert s1 == Raise(s, 0);
    assert Drive(cfg, s, 2) == Drive(cfg, s1, 1) == Drive(cfg, Step(cfg, s1, Advance(0)), 0);
  }

  // ---------------------------------------------------------------- a burst inside the window

  function Total(gaps: seq<nat>): nat {
    if gaps == [] then 0 else gaps[0] + Total(gaps[1..])
  }

  /** One signal of component `c` after each pause of `gaps`. */
  function Burst(cfg: Config, s: State, c: Component, gaps: seq<nat>): State
    requires |s.workers| > 0
    decreases |gaps|
  {
    if gaps == [] then s
    else Burst(cfg, ResolveAlone(cfg, Step(cfg, s, Tick(gaps[0])), c), c, gaps[1..])
  }

  /** Signals the current hash can still link. */
  function Credit(cfg: Config, s: State, c: Component): nat {
    if c in s.sessions && s.sessions[c].Seeded? && s.sessions[c].count < cfg.threshold
    then cfg.threshold - s.sessions[c].count else 0
  }

  /** `v` store visits serve exactly `n` signals when `credit` of them are free and each visit pays for `period`. */
  predicate Covers(v: nat, credit: nat, period: nat, n: nat) {
    && credit + v * period >= n
    && (v > 0 ==> credit + (v - 1) * period < n)
  }

  lemma OneMoreVisit(v: nat, period: nat, n: nat)
    requires n > 0 && period > 0 && Covers(v, period - 1, period, n - 1)
    ensures Covers(v + 1, 0, period, n)
  {
    assert (v + 1) * period == v * period + period;
    if v > 0 { assert (v - 1) * period + period == v * period; }
  }

  /** `n / q`, rounded up. */
  function CeilDiv(n: nat, q: nat): nat
    requires q > 0
  {
    (n + q - 1) / q
  }

  lemma DivUnique(x: int, q: int, v: int, r: int)
    requires q > 0 && x == v * q + r && 0 <= r < q
    ensures x / q == v
  {
    var d := x / q - v;
    assert d * q == r - x % q by { assert (x / q) * q + x % q == x; assert d * q == (x / q) * q - v * q; }
    assert d >= 1 ==> d * q >= q;
    assert d <= -1 ==> d * q <= -q;
  }

  lemma CoversIsCeil(v: nat, q: nat, n: nat)
    requires q > 0 && Covers(v, 0, q, n)
    ensures v == CeilDiv(n, q)
  {
    if v > 0 { assert (v - 1) * q + q == v * q; }
    DivUnique(n + q - 1, q, v, n + q - 1 - v * q);
  }

  lemma {:induction false} BurstVisits(cfg: Config, s: State, c: Component, gaps: seq<nat>, since: int) returns (v: nat)
    requires Ready(s, c)
    requires c in s.sessions && s.sessions[c].Seeded? ==> s.sessions[c].startedAt >= since
    requires since <= s.clock && s.clock + Total(gaps) - since < cfg.windowMs
    ensures Burst(cfg, s, c, gaps).storeVisits == s.storeVisits + v
    ensures Covers(v, Credit(cfg, s, c), cfg.threshold + 1, |gaps|)
    decreases |gaps|
  {
    if gaps == [] { return 0; }
    var s1 := Step(cfg, s, Tick(gaps[0]));
    if Trusted(cfg, Fetch(s1, c), s1.clock) {
      v := BurstVisits(cfg, FastOutcome(s1, c), c, gaps[1..], since);
    } else {
      var u := BurstVisits(cfg, StoreOutcome(s1, c), c, gaps[1..], since);
      OneMoreVisit(u, cfg.threshold + 1, |gaps|);
      v := u + 1;
    }
  }

  /**
   * One worker, `n` signals of one component, all inside the window, nothing
   * cached at the start: the store is visited exactly ceil(n / (threshold + 1)) times.
   */
  lemma BurstCost(cfg: Config, s: State, c: Component, gaps: seq<nat>)
    requires Ready(s, c) && (c !in s.sessions || s.sessions[c].CountOnly?)
    requires Total(gaps) < cfg.windowMs
    ensures Burst(cfg, s, c, gaps).storeVisits == s.storeVisits + CeilDiv(|gaps|, cfg.threshold + 1)
  {
    var v := BurstVisits(cfg, s, c, gaps, s.clock);
    CoversIsCeil(v, cfg.threshold + 1, |gaps|);
  }

  /** The same for one batch of `n` signals handed to `resolveBatch` while the clock stands still. */
  lemma BatchCost(cfg: Config, s: State, c: Component, n: nat)
    requires Ready(s, c) && (c !in s.sessions || s.sessions[c].CountOnly?)
    requires cfg.windowMs > 0
    ensures ResolveAll(cfg, s, seq(n, _ => c)).storeVisits == s.storeVisits + CeilDiv(n, cfg.threshold + 1)
  {
    NoPauses(cfg, s, c, n);
    BurstCost(cfg, s, c, seq(n, _ => 0));
  }

  lemma {:induction false} NoPauses(cfg: Config, s: State, c: Component, n: nat)
    requires |s.workers| > 0
    ensures ResolveAll(cfg, s, seq(n, _ => c)) == Burst(cfg, s, c, seq(n, _ => 0))
    ensures Total(seq(n, _ => 0)) == 0
    decreases n
  {
    if n > 0 {
      assert seq(n, _ => c)[1..] == seq(n - 1, _ => c);
      assert seq(n, _ => 0)[1..] == seq(n - 1, _ => 0);
      assert Step(cfg, s, Tick(0)) == s;
      NoPauses(cfg, ResolveAlone(cfg, s, c), c, n - 1);
    }
  }

  function ResolveAll(cfg: Config, s: State, signals: seq<Component>): State
    requires |s.workers| > 0
    decreases |signals|
  {
    if signals == [] then s else ResolveAll(cfg, ResolveAlone(cfg, s, signals[0]), signals[1..])
  }

  // ---------------------------------------------------------------- the class

  class SignalDebouncer {
    const cfg: Config
    var items: seq<Item>
    var sessions: map<Component, Session>
    var locks: set<Component>
    var clock: int
    ghost var workers: seq<Worker>
    ghost var results: seq<Result>
    ghost var seedings: seq<Seeding>
    ghost var storeVisits: nat
    var nextGen: nat

    ghost predicate Valid()
      reads this
    {
      |workers| > 0 && workers[0].phase.Idle? && locks == {} && nextGen == |seedings|
    }

    /** The protocol state this object is in. */
    ghost function World(): State
      reads this
    {
      State(items, sessions, locks, clock, workers, results, seedings, storeVisits)
    }

    constructor (cfg: Config)
      ensures Valid() && World() == Init(1) && this.cfg == cfg
    {
      this.cfg := cfg;
      items, sessions, locks, clock, nextGen := [], map[], {}, 0, 0;
      workers, results, seedings, storeVisits := seq(1, _ => Worker("", Idle)), [], [], 0;
    }

    method ReadValidSession(c: Component) returns (session: Option<ItemId>)
      ensures session.Some? <==>
        c in sessions && sessions[c].Seeded? && sessions[c].count < cfg.threshold && clock - sessions[c].startedAt < cfg.windowMs
      ensures session.Some? ==> session.value == sessions[c].item
    {
      if c !in sessions { return None; }
      match sessions[c] {
        case CountOnly(_) => return None;
        case Seeded(item, count, startedAt, _) =>
          if count >= cfg.threshold { return None; }
          if clock - startedAt >= cfg.windowMs { return None; }
          return Some(item);
      }
    }

    method SeedSession(c: Component, item: ItemId)
      modifies this`sessions, this`seedings, this`nextGen
      ensures sessions == old(sessions)[c := Seeded(item, 0, clock, old(nextGen))]
      ensures seedings == old(seedings) + [Seeding(c, 0)] && nextGen == old(nextGen) + 1
    {
      sessions := sessions[c := Seeded(item, 0, clock, nextGen)];
      seedings := seedings + [Seeding(c, 0)];
      nextGen := nextGen + 1;
    }

    method BumpSessionCount(c: Component)
      modifies this`sessions
      ensures sessions == old(sessions)[c := Increment(old(Fetch(World(), c)))]
    {
      sessions := sessions[c := Increment(if c in sessions then Some(sessions[c]) else None)];
    }

    method ResolveFromStore(c: Component) returns (link: Link)
      requires nextGen == |seedings|
      modifies this`items, this`sessions, this`seedings, this`nextGen, this`storeVisits
      ensures var found := FirstActive(old(items), c);
        && link == (if found.Some? then Link(found.value, false) else Link(|old(items)|, true))
        && items == (if found.Some? then old(items) else old(items) + [Item(c, false, 0)])
      ensures sessions == old(sessions)[c := Seeded(link.item, 0, clock, |old(seedings)|)]
      ensures seedings == old(seedings) + [Seeding(c, 0)] && nextGen == |seedings|
      ensures storeVisits == old(storeVisits) + 1
    {
      var existing := FirstActive(items, c);
      storeVisits := storeVisits + 1;
      if existing.Some? {
        link := Link(existing.value, false);
      } else {
        link := Link(|items|, true);
        items := items + [Item(c, false, 0)];
      }
      SeedSession(c, link.item);
    }

    /** One resolve leaves the world where the protocol's uninterrupted run leaves it. */
    method Resolve(c: Component) returns (link: Link)
      requires Valid()
      modifies this
      ensures Valid()
      ensures World() == ResolveAlone(cfg, old(World()), c)
      ensures results == old(results) + [Result(0, c, link)] && clock == old(clock)
    {
      ghost var before := World();
      var cached := ReadValidSession(c);
      if cached.Some? {
        seedings := Serve(seedings, sessions[c].gen);
        BumpSessionCount(c);
        link := Link(cached.value, false);
      } else {
        locks := locks + {c};
        link := ResolveFromStore(c);
        locks := locks - {c};
      }
      results := results + [Result(0, c, link)];
      workers := workers[0 := Worker(c, Idle)];
    }

    /** The results are in the order of the signals, each for its own component. */
    method ResolveBatch(signals: seq<Component>) returns (links: seq<Link>)
      requires Valid()
      modifies this
      ensures Valid() && |links| == |signals|
      ensures World() == ResolveAll(cfg, old(World()), signals)
      ensures results == old(results) + seq(|signals|, i requires 0 <= i < |signals| => Result(0, signals[i], links[i]))
    {
      links := [];
      for i := 0 to |signals|
        invariant Valid() && |links| == i
        invariant ResolveAll(cfg, World(), signals[i..]) == ResolveAll(cfg, old(World()), signals)
        invariant results == old(results) + seq(i, k requires 0 <= k < i => Result(0, signals[k], links[k]))
      {
        assert signals[i..][1..] == signals[i + 1..];
        var link := Resolve(signals[i]);
        links := links + [link];
      }
    }
  }
}
