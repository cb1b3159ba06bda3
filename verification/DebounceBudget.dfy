/**
 * How many signals one seeded session may link without asking the store, given
 * that the count is checked and incremented by two separate Redis commands.
 */
module DebounceBudget {
  import opened Options
  import opened DebounceProtocol

  /** Worker phase `p` is about to serve, or may still decide to serve, a link from seeding `g`. */
  predicate Holder(cfg: Config, p: Phase, g: nat) {
    || (p.Bump? && p.gen == g)
    || (RawOf(p).Some? && RawOf(p).value.Seeded? && RawOf(p).value.gen == g && RawOf(p).value.count < cfg.threshold)
  }

  function Holders(cfg: Config, workers: seq<Worker>, g: nat): set<WorkerId> {
    set w | 0 <= w < |workers| && Holder(cfg, workers[w].phase, g)
  }

  predicate GenOk(s: State, gen: nat, c: Component) {
    gen < |s.seedings| && s.seedings[gen].component == c
  }

  ghost predicate HashOk(s: State, c: Component, h: Session) {
    h.Seeded? ==> GenOk(s, h.gen, c)
  }

  ghost predicate GensOk(s: State) {
    && (forall c :: c in s.sessions ==> HashOk(s, c, s.sessions[c]))
    && (forall w :: 0 <= w < |s.workers| ==> PhaseGenOk(s, s.workers[w].component, s.workers[w].phase))
  }

  ghost predicate PhaseGenOk(s: State, c: Component, p: Phase) {
    && (p.Bump? ==> GenOk(s, p.gen, c))
    && (RawOf(p).Some? ==> HashOk(s, c, RawOf(p).value))
  }

  /** While a seeding is still the hash in Redis, its count has kept up with the links it served. */
  ghost predicate CountCovers(s: State) {
    forall c :: c in s.sessions && s.sessions[c].Seeded? && s.sessions[c].gen < |s.seedings|
      ==> s.seedings[s.sessions[c].gen].served <= s.sessions[c].count
  }

  ghost predicate WithinBudget(cfg: Config, s: State) {
    forall g :: 0 <= g < |s.seedings| ==>
      s.seedings[g].served + |Holders(cfg, s.workers, g)| <= cfg.threshold + |s.workers| - 1
  }

  ghost predicate Budget(cfg: Config, s: State) {
    GensOk(s) && CountCovers(s) && WithinBudget(cfg, s)
  }

  function Upto(k: nat): (r: set<nat>)
    ensures forall w: nat :: w in r <==> w < k
    ensures |r| == k
  {
    if k == 0 then {} else Upto(k - 1) + {k - 1}
  }

  lemma SubsetCard(a: set<nat>, b: set<nat>)
    requires a <= b
    ensures |a| <= |b|
  {
    assert b == a + (b - a);
  }

  lemma HoldersBounded(cfg: Config, workers: seq<Worker>, g: nat)
    ensures |Holders(cfg, workers, g)| <= |workers|
  {
    SubsetCard(Holders(cfg, workers, g), Upto(|workers|));
  }

  /** Moving one worker changes the holders of `g` by that worker only. */
  lemma HoldersAfterMove(cfg: Config, ws: seq<Worker>, w: WorkerId, x: Worker, g: nat)
    requires w < |ws|
    ensures var before, after := Holders(cfg, ws, g), Holders(cfg, ws[w := x], g);
      after == if Holder(cfg, x.phase, g) then before + {w} else before - {w}
  {
  }

  lemma MoveKeepsBudget(cfg: Config, s: State, w: WorkerId, p: Phase)
    requires Budget(cfg, s) && w < |s.workers| && PhaseGenOk(s, s.workers[w].component, p)
    requires forall g :: 0 <= g < |s.seedings| && Holder(cfg, p, g) ==>
      || Holder(cfg, s.workers[w].phase, g)
      || s.seedings[g].served < cfg.threshold
    ensures Budget(cfg, Goto(s, w, p))
  {
    var t := Goto(s, w, p);
    forall v | 0 <= v < |t.workers| ensures PhaseGenOk(t, t.workers[v].component, t.workers[v].phase) {
      assert PhaseGenOk(s, s.workers[v].component, s.workers[v].phase);
    }
    forall g | 0 <= g < |t.seedings|
      ensures t.seedings[g].served + |Holders(cfg, t.workers, g)| <= cfg.threshold + |t.workers| - 1
    {
      HoldersAfterMove(cfg, s.workers, w, t.workers[w], g);
      SubsetCard(Holders(cfg, s.workers, g) - {w}, Holders(cfg, s.workers, g));
      HoldersBounded(cfg, t.workers, g);
      if Holder(cfg, p, g) && Holder(cfg, s.workers[w].phase, g) {
        assert Holders(cfg, t.workers, g) == Holders(cfg, s.workers, g);
      }
    }
  }

  /** Reading the hash: whoever sees a count below the threshold sees a seeding that is not used up. */
  lemma FetchKeepsBudget(cfg: Config, s: State, w: WorkerId, p: Phase)
    requires Budget(cfg, s) && w < |s.workers| && RawOf(p) == Fetch(s, s.workers[w].component) && !p.Bump?
    ensures Budget(cfg, Goto(s, w, p))
  {
    MoveKeepsBudget(cfg, s, w, p);
  }

  lemma BumpKeepsGens(cfg: Config, s: State, w: WorkerId)
    requires Budget(cfg, s) && w < |s.workers| && s.workers[w].phase.Bump?
    ensures GensOk(Proceed(cfg, s, w)) && CountCovers(Proceed(cfg, s, w))
  {
    var t := Proceed(cfg, s, w);
    assert PhaseGenOk(s, s.workers[w].component, s.workers[w].phase);
    forall v | 0 <= v < |t.workers| ensures PhaseGenOk(t, t.workers[v].component, t.workers[v].phase) {
      assert PhaseGenOk(s, s.workers[v].component, s.workers[v].phase);
    }
    forall c | c in t.sessions ensures HashOk(t, c, t.sessions[c]) {
      assert c in s.sessions ==> HashOk(s, c, s.sessions[c]);
    }
  }

  /** HINCRBY: one holder becomes one served link, and the live hash counts it. */
  lemma BumpKeepsBudget(cfg: Config, s: State, w: WorkerId)
    requires Budget(cfg, s) && w < |s.workers| && s.workers[w].phase.Bump?
    ensures Budget(cfg, Proceed(cfg, s, w))
  {
    BumpKeepsGens(cfg, s, w);
    var t := Proceed(cfg, s, w);
    forall g | 0 <= g < |t.seedings|
      ensures t.seedings[g].served + |Holders(cfg, t.workers, g)| <= cfg.threshold + |t.workers| - 1
    {
      BumpServesOne(cfg, s, w, g);
    }
  }

  lemma BumpServesOne(cfg: Config, s: State, w: WorkerId, g: nat)
    requires Budget(cfg, s) && w < |s.workers| && s.workers[w].phase.Bump? && g < |s.seedings|
    ensures var t := Proceed(cfg, s, w);
      && |t.workers| == |s.workers| && |t.seedings| == |s.seedings|
      && t.seedings[g].served + |Holders(cfg, t.workers, g)| <= cfg.threshold + |t.workers| - 1
  {
    var t := Proceed(cfg, s, w);
    assert PhaseGenOk(s, s.workers[w].component, s.workers[w].phase);
    HoldersAfterMove(cfg, s.workers, w, t.workers[w], g);
    if g == s.workers[w].phase.gen {
      assert w in Holders(cfg, s.workers, g);
      assert |Holders(cfg, t.workers, g)| == |Holders(cfg, s.workers, g)| - 1;
    } else {
      assert Holders(cfg, t.workers, g) == Holders(cfg, s.workers, g);
    }
  }

  lemma SeedKeepsGens(cfg: Config, s: State, w: WorkerId)
    requires Budget(cfg, s) && w < |s.workers| && s.workers[w].phase.WriteSeed?
    ensures GensOk(Proceed(cfg, s, w)) && CountCovers(Proceed(cfg, s, w))
  {
    var t := Proceed(cfg, s, w);
    forall v | 0 <= v < |t.workers| ensures PhaseGenOk(t, t.workers[v].component, t.workers[v].phase) {
      assert PhaseGenOk(s, s.workers[v].component, s.workers[v].phase);
    }
    forall c | c in t.sessions ensures HashOk(t, c, t.sessions[c]) {
      assert c in s.sessions ==> HashOk(s, c, s.sessions[c]);
    }
  }

  lemma FreshUnheld(cfg: Config, s: State)
    requires GensOk(s)
    ensures Holders(cfg, s.workers, |s.seedings|) == {}
  {
    forall v | 0 <= v < |s.workers| ensures !Holder(cfg, s.workers[v].phase, |s.seedings|) {
      assert PhaseGenOk(s, s.workers[v].component, s.workers[v].phase);
    }
  }

  /** HSET starts a fresh seeding that nobody holds yet. */
  lemma SeedKeepsBudget(cfg: Config, s: State, w: WorkerId)
    requires Budget(cfg, s) && w < |s.workers| && s.workers[w].phase.WriteSeed?
    ensures Budget(cfg, Proceed(cfg, s, w))
  {
    SeedKeepsGens(cfg, s, w);
    var t := Proceed(cfg, s, w);
    forall g | 0 <= g < |t.seedings|
      ensures t.seedings[g].served + |Holders(cfg, t.workers, g)| <= cfg.threshold + |t.workers| - 1
    {
      SeedServesNone(cfg, s, w, g);
    }
  }

  lemma SeedServesNone(cfg: Config, s: State, w: WorkerId, g: nat)
    requires Budget(cfg, s) && w < |s.workers| && s.workers[w].phase.WriteSeed? && g <= |s.seedings|
    ensures var t := Proceed(cfg, s, w);
      && |t.workers| == |s.workers| && |t.seedings| == |s.seedings| + 1
      && t.seedings[g].served + |Holders(cfg, t.workers, g)| <= cfg.threshold + |t.workers| - 1
  {
    var t := Proceed(cfg, s, w);
    HoldersAfterMove(cfg, s.workers, w, t.workers[w], g);
    assert w !in Holders(cfg, s.workers, g) && !Holder(cfg, t.workers[w].phase, g);
    assert Holders(cfg, t.workers, g) == Holders(cfg, s.workers, g);
    if g == |s.seedings| { FreshUnheld(cfg, s); }
  }

  /** A state that differs only in rows, locks, clock, results or visits has the same budget. */
  lemma SameRedis(cfg: Config, s: State, t: State)
    requires Budget(cfg, s) && t.workers == s.workers && t.seedings == s.seedings
    requires forall c :: c in t.sessions ==> c in s.sessions && t.sessions[c] == s.sessions[c]
    ensures Budget(cfg, t)
  {
    forall v | 0 <= v < |t.workers| ensures PhaseGenOk(t, t.workers[v].component, t.workers[v].phase) {
      assert PhaseGenOk(s, s.workers[v].component, s.workers[v].phase);
    }
  }

  /** Reading the hash, before the lock or while waiting for it. */
  lemma ReadKeepsBudget(cfg: Config, s: State, w: WorkerId)
    requires Budget(cfg, s) && w < |s.workers|
    requires s.workers[w].phase.ReadSession? || s.workers[w].phase.PollRead?
    ensures Budget(cfg, Proceed(cfg, s, w))
  {
    FetchKeepsBudget(cfg, s, w, Proceed(cfg, s, w).workers[w].phase);
  }

  /** Deciding to bump on a trusted read, or to go on. */
  lemma JudgeKeepsBudget(cfg: Config, s: State, w: WorkerId)
    requires Budget(cfg, s) && w < |s.workers|
    requires s.workers[w].phase.JudgeSession? || s.workers[w].phase.PollJudge?
    ensures Budget(cfg, Proceed(cfg, s, w))
  {
    assert PhaseGenOk(s, s.workers[w].component, s.workers[w].phase);
    MoveKeepsBudget(cfg, s, w, Proceed(cfg, s, w).workers[w].phase);
  }

  predicate Elsewhere(p: Phase) {
    p.TryLock? || p.PollCheck? || p.Find? || p.Insert? || p.FindWinner? || p.StampSeed? || p.ExpireSeed? || p.Unlock? || p.Return?
  }

  /** The steps that neither read nor write the hash. */
  lemma ElsewhereKeepsBudget(cfg: Config, s: State, w: WorkerId)
    requires Budget(cfg, s) && w < |s.workers| && Elsewhere(s.workers[w].phase)
    ensures Budget(cfg, Proceed(cfg, s, w))
  {
    var t := Proceed(cfg, s, w);
    var s1 := t.(workers := s.workers);
    SameRedis(cfg, s, s1);
    assert t == Goto(s1, w, t.workers[w].phase);
    MoveKeepsBudget(cfg, s1, w, t.workers[w].phase);
  }

  lemma StartKeepsBudget(cfg: Config, s: State, w: WorkerId, c: Component)
    requires Budget(cfg, s)
    ensures Budget(cfg, Step(cfg, s, Start(w, c)))
  {
    var t := Step(cfg, s, Start(w, c));
    if t != s {
      forall v | 0 <= v < |t.workers| ensures PhaseGenOk(t, t.workers[v].component, t.workers[v].phase) {
        assert PhaseGenOk(s, s.workers[v].component, s.workers[v].phase);
      }
      forall g | 0 <= g < |t.seedings|
        ensures t.seedings[g].served + |Holders(cfg, t.workers, g)| <= cfg.threshold + |t.workers| - 1
      {
        HoldersAfterMove(cfg, s.workers, w, t.workers[w], g);
        assert Holders(cfg, t.workers, g) == Holders(cfg, s.workers, g);
      }
    }
  }

  lemma AdvanceKeepsBudget(cfg: Config, s: State, w: WorkerId)
    requires Budget(cfg, s) && w < |s.workers|
    ensures Budget(cfg, Proceed(cfg, s, w))
  {
    match s.workers[w].phase
    case Idle =>
    case Bump(_, _) => BumpKeepsBudget(cfg, s, w);
    case WriteSeed(_, _, _) => SeedKeepsBudget(cfg, s, w);
    case ReadSession => ReadKeepsBudget(cfg, s, w);
    case PollRead(_) => ReadKeepsBudget(cfg, s, w);
    case JudgeSession(_) => JudgeKeepsBudget(cfg, s, w);
    case PollJudge(_, _) => JudgeKeepsBudget(cfg, s, w);
    case _ => ElsewhereKeepsBudget(cfg, s, w);
  }

  lemma StepKeepsBudget(cfg: Config, s: State, a: Action)
    requires Budget(cfg, s)
    ensures Budget(cfg, Step(cfg, s, a))
  {
    match a
    case Start(w, c) => StartKeepsBudget(cfg, s, w, c);
    case Advance(w) => if w < |s.workers| { AdvanceKeepsBudget(cfg, s, w); }
    case LoseAck(w) => if w < |s.workers| && s.workers[w].phase.Insert? { LoseAckKeepsBudget(cfg, s, w); }
    case Abort(w) => if w < |s.workers| && s.workers[w].phase.Insert? { RetryKeepsBudget(cfg, s, w); }
    case Throw(w) => if w < |s.workers| { RaiseKeepsBudget(cfg, s, w); }
    case LoseReply(w) => if w < |s.workers| { LoseReplyKeepsBudget(cfg, s, w); }
    case _ => SameRedis(cfg, s, Step(cfg, s, a));
  }

  lemma StepKeepsCrew(cfg: Config, s: State, a: Action)
    ensures |Step(cfg, s, a).workers| == |s.workers|
  {
  }

  /** Leaving for a phase that holds no session. */
  lemma LeaveKeepsBudget(cfg: Config, s: State, w: WorkerId, p: Phase)
    requires Budget(cfg, s) && w < |s.workers| && !p.Bump? && RawOf(p).None?
    ensures Budget(cfg, Goto(s, w, p))
  {
    MoveKeepsBudget(cfg, s, w, p);
  }

  lemma RaiseKeepsBudget(cfg: Config, s: State, w: WorkerId)
    requires Budget(cfg, s) && w < |s.workers|
    ensures Budget(cfg, Raise(s, w))
  {
    LeaveKeepsBudget(cfg, s, w, if HoldsLock(s.workers[w].phase) then Unlock(None) else Idle);
  }

  lemma RetryKeepsBudget(cfg: Config, s: State, w: WorkerId)
    requires Budget(cfg, s) && w < |s.workers| && s.workers[w].phase.Insert?
    ensures var p := s.workers[w].phase; Budget(cfg, RetryInsert(s, w, p.holds, p.attempt))
  {
    var p := s.workers[w].phase;
    if p.attempt < INSERT_ATTEMPTS {
      LeaveKeepsBudget(cfg, s, w, Insert(p.holds, p.attempt + 1));
    } else {
      RaiseKeepsBudget(cfg, s, w);
    }
  }

  lemma LoseAckKeepsBudget(cfg: Config, s: State, w: WorkerId)
    requires Budget(cfg, s) && w < |s.workers| && s.workers[w].phase.Insert?
    ensures Budget(cfg, Step(cfg, s, LoseAck(w)))
  {
    var t := if FirstActive(s.items, s.workers[w].component).Some? then s else InsertRow(s, w);
    SameRedis(cfg, s, t);
    RetryKeepsBudget(cfg, t, w);
  }

  /** An increment that serves nobody still counts, so the count keeps covering the links. */
  lemma LostBumpKeepsBudget(cfg: Config, s: State, w: WorkerId)
    requires Budget(cfg, s) && w < |s.workers| && s.workers[w].phase.Bump?
    ensures Budget(cfg, RedisWrite(s, w))
  {
    var t := RedisWrite(s, w);
    forall v | 0 <= v < |t.workers| ensures PhaseGenOk(t, t.workers[v].component, t.workers[v].phase) {
      assert PhaseGenOk(s, s.workers[v].component, s.workers[v].phase);
    }
    forall c | c in t.sessions ensures HashOk(t, c, t.sessions[c]) {
      assert c in s.sessions ==> HashOk(s, c, s.sessions[c]);
    }
  }

  lemma LostSeedKeepsBudget(cfg: Config, s: State, w: WorkerId)
    requires Budget(cfg, s) && w < |s.workers| && s.workers[w].phase.WriteSeed?
    ensures Budget(cfg, Raise(RedisWrite(s, w), w))
  {
    var t, p := Proceed(cfg, s, w), if s.workers[w].phase.holds then Unlock(None) else Idle;
    SeedKeepsBudget(cfg, s, w);
    LeaveKeepsBudget(cfg, t, w, p);
    assert Raise(RedisWrite(s, w), w) == Goto(t, w, p);
  }

  lemma LostLockKeepsBudget(cfg: Config, s: State, w: WorkerId)
    requires Budget(cfg, s) && w < |s.workers| && !s.workers[w].phase.Bump? && !s.workers[w].phase.WriteSeed?
    ensures Budget(cfg, RedisWrite(s, w))
  {
    SameRedis(cfg, s, RedisWrite(s, w));
  }

  lemma LoseReplyKeepsBudget(cfg: Config, s: State, w: WorkerId)
    requires Budget(cfg, s) && w < |s.workers|
    ensures Budget(cfg, Step(cfg, s, LoseReply(w)))
  {
    if s.workers[w].phase.WriteSeed? {
      LostSeedKeepsBudget(cfg, s, w);
    } else {
      if s.workers[w].phase.Bump? { LostBumpKeepsBudget(cfg, s, w); } else { LostLockKeepsBudget(cfg, s, w); }
      RaiseKeepsBudget(cfg, RedisWrite(s, w), w);
    }
  }

  lemma {:induction false} RunKeepsBudget(cfg: Config, s: State, actions: seq<Action>)
    requires Budget(cfg, s)
    ensures Budget(cfg, Run(cfg, s, actions))
    ensures |Run(cfg, s, actions).workers| == |s.workers|
    decreases |actions|
  {
    if actions != [] {
      StepKeepsBudget(cfg, s, actions[0]);
      StepKeepsCrew(cfg, s, actions[0]);
      RunKeepsBudget(cfg, Step(cfg, s, actions[0]), actions[1..]);
    }
  }

  /**
   * With `k` workers, one seeding serves at most `threshold + k - 1` links,
   * although nothing ties the check of the count to its increment.
   */
  lemma SeedingServesAtMost(cfg: Config, k: nat, actions: seq<Action>, g: nat)
    requires g < |Run(cfg, Init(k), actions).seedings|
    ensures Run(cfg, Init(k), actions).seedings[g].served <= cfg.threshold + k - 1
  {
    RunKeepsBudget(cfg, Init(k), actions);
  }

  // ---------------------------------------------------------------- count-only hashes

  predicate Unseeded(s: State, c: Component) {
    c !in s.sessions || s.sessions[c].CountOnly?
  }

  /** The action is an HSET of component `c`. */
  predicate Seeds(s: State, a: Action, c: Component) {
    && (a.Advance? || a.LoseReply?)
    && a.w < |s.workers|
    && s.workers[a.w].phase.WriteSeed?
    && s.workers[a.w].component == c
  }

  ghost predicate NeverSeeds(cfg: Config, s: State, actions: seq<Action>, c: Component)
    decreases |actions|
  {
    actions == [] || (!Seeds(s, actions[0], c) && NeverSeeds(cfg, Step(cfg, s, actions[0]), actions[1..], c))
  }

  /**
   * Once a hash has expired, late bumps may recreate it with a count alone; until
   * somebody seeds the component again no read of it is trusted.
   */
  lemma {:induction false} CountOnlyNeverTrusted(cfg: Config, s: State, actions: seq<Action>, c: Component, now: int)
    requires Unseeded(s, c) && NeverSeeds(cfg, s, actions, c)
    ensures !Trusted(cfg, Fetch(Run(cfg, s, actions), c), now)
    decreases |actions|
  {
    if actions != [] {
      StaysUnseeded(cfg, s, actions[0], c);
      CountOnlyNeverTrusted(cfg, Step(cfg, s, actions[0]), actions[1..], c, now);
    }
  }

  lemma StaysUnseeded(cfg: Config, s: State, a: Action, c: Component)
    requires Unseeded(s, c) && !Seeds(s, a, c)
    ensures Unseeded(Step(cfg, s, a), c)
  {
  }
}
