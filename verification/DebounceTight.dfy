/** The bound on what one seeding serves is reached: no smaller one holds for all runs. */
module DebounceTight {
  import opened Options
  import opened DebounceProtocol
  import opened DebounceSolo

  lemma {:induction false} RunConcat(cfg: Config, s: State, a: seq<Action>, b: seq<Action>)
    ensures Run(cfg, s, a + b) == Run(cfg, Run(cfg, s, a), b)
    decreases |a|
  {
    if a == [] {
      assert a + b == b;
    } else {
      assert (a + b)[1..] == a[1..] + b;
      RunConcat(cfg, Step(cfg, s, a[0]), a[1..], b);
    }
  }

  lemma RunFirst(cfg: Config, s: State, a: Action, rest: seq<Action>)
    ensures Run(cfg, s, [a] + rest) == Run(cfg, Step(cfg, s, a), rest)
  {
    assert ([a] + rest)[1..] == rest;
  }

  /** Component `c` has a trusted hash of seeding `g`. */
  predicate Live(cfg: Config, s: State, c: Component, g: nat) {
    && Trusted(cfg, Fetch(s, c), s.clock)
    && s.sessions[c].gen == g
    && g < |s.seedings|
  }

  predicate AllIdle(s: State, from: nat) {
    forall v :: from <= v < |s.workers| ==> s.workers[v].phase.Idle?
  }

  /** One worker uses the hash up to its last count but one. */
  lemma {:induction false} UseUp(cfg: Config, s: State, c: Component, g: nat) returns (actions: seq<Action>)
    requires Live(cfg, s, c, g) && Ready(s, c) && AllIdle(s, 0)
    requires s.seedings[g].served == s.sessions[c].count
    ensures var t := Run(cfg, s, actions);
      && Live(cfg, t, c, g) && AllIdle(t, 0) && |t.workers| == |s.workers|
      && t.seedings[g].served == cfg.threshold - 1
    decreases cfg.threshold - s.sessions[c].count
  {
    if s.sessions[c].count == cfg.threshold - 1 {
      actions := [];
    } else {
      var once := [Start(0, c)] + Repeat(Advance(0), LONGEST_RESOLVE);
      ResolveAloneIsRun(cfg, s, c, LONGEST_RESOLVE);
      var t := ResolveAlone(cfg, s, c);
      assert t == FastOutcome(s, c);
      var rest := UseUp(cfg, t, c, g);
      RunConcat(cfg, s, once, rest);
      actions := once + rest;
    }
  }

  predicate AboutToBump(s: State, c: Component, g: nat, from: nat, to: nat) {
    forall v :: from <= v < to && v < |s.workers| ==>
      s.workers[v].component == c && s.workers[v].phase.Bump? && s.workers[v].phase.gen == g
  }

  /** Every worker reads the hash before anybody increments it. */
  lemma {:induction false} ReadAll(cfg: Config, s: State, c: Component, g: nat, w: nat) returns (actions: seq<Action>)
    requires Live(cfg, s, c, g) && w <= |s.workers| && AllIdle(s, w) && AboutToBump(s, c, g, 0, w)
    ensures var t := Run(cfg, s, actions);
      && t.seedings == s.seedings && |t.workers| == |s.workers|
      && AboutToBump(t, c, g, 0, |t.workers|)
    decreases |s.workers| - w
  {
    if w == |s.workers| {
      actions := [];
    } else {
      var s1 := Step(cfg, s, Start(w, c));
      var s2 := Step(cfg, s1, Advance(w));
      var s3 := Step(cfg, s2, Advance(w));
      assert s2.workers[w].phase == JudgeSession(Fetch(s, c));
      var rest := ReadAll(cfg, s3, c, g, w + 1);
      RunFirst(cfg, s2, Advance(w), rest);
      RunFirst(cfg, s1, Advance(w), [Advance(w)] + rest);
      RunFirst(cfg, s, Start(w, c), [Advance(w)] + ([Advance(w)] + rest));
      actions := [Start(w, c)] + ([Advance(w)] + ([Advance(w)] + rest));
    }
  }

  /** Then every worker increments it and returns its link. */
  lemma {:induction false} BumpAll(cfg: Config, s: State, c: Component, g: nat, w: nat) returns (actions: seq<Action>)
    requires g < |s.seedings| && w <= |s.workers| && AboutToBump(s, c, g, w, |s.workers|)
    ensures var t := Run(cfg, s, actions);
      g < |t.seedings| && t.seedings[g].served == s.seedings[g].served + |s.workers| - w
    decreases |s.workers| - w
  {
    if w == |s.workers| {
      actions := [];
    } else {
      var s1 := Step(cfg, s, Advance(w));
      var rest := BumpAll(cfg, s1, c, g, w + 1);
      RunFirst(cfg, s, Advance(w), rest);
      actions := [Advance(w)] + rest;
    }
  }

  /** Some run of `k` workers makes one seeding serve `threshold + k - 1` links. */
  lemma BudgetIsReached(cfg: Config, k: nat) returns (actions: seq<Action>)
    requires k > 0 && cfg.threshold > 0 && cfg.windowMs > 0
    ensures var s := Run(cfg, Init(k), actions);
      s.seedings != [] && s.seedings[0].served == cfg.threshold + k - 1
  {
    var c := "db-primary";
    var s0 := Init(k);
    var first := [Start(0, c)] + Repeat(Advance(0), LONGEST_RESOLVE);
    ResolveAloneIsRun(cfg, s0, c, LONGEST_RESOLVE);
    var s1 := ResolveAlone(cfg, s0, c);
    assert s1 == StoreOutcome(s0, c);
    var second := UseUp(cfg, s1, c, 0);
    var s2 := Run(cfg, s1, second);
    var third := ReadAll(cfg, s2, c, 0, 0);
    var s3 := Run(cfg, s2, third);
    var fourth := BumpAll(cfg, s3, c, 0, 0);
    RunConcat(cfg, s0, first, second + (third + fourth));
    RunConcat(cfg, s1, second, third + fourth);
    RunConcat(cfg, s2, third, fourth);
    actions := first + (second + (third + fourth));
  }

  // ---------------------------------------------------------------- a threshold of zero

  /** Nobody is about to use a hash, and none has been used. */
  predicate Unused(s: State) {
    && (forall w :: 0 <= w < |s.workers| ==> !s.workers[w].phase.Bump?)
    && (forall g :: 0 <= g < |s.seedings| ==> s.seedings[g].served == 0)
  }

  lemma ProceedUnused(cfg: Config, s: State, w: WorkerId)
    requires cfg.threshold == 0 && Unused(s) && w < |s.workers|
    ensures Unused(Proceed(cfg, s, w))
  {
  }

  lemma StepUnused(cfg: Config, s: State, a: Action)
    requires cfg.threshold == 0 && Unused(s)
    ensures Unused(Step(cfg, s, a))
  {
    match a
    case Advance(w) => if w < |s.workers| { ProceedUnused(cfg, s, w); }
    case _ =>
  }

  lemma {:induction false} UnusedForever(cfg: Config, s: State, actions: seq<Action>)
    requires cfg.threshold == 0 && Unused(s)
    ensures Unused(Run(cfg, s, actions))
    decreases |actions|
  {
    if actions != [] {
      StepUnused(cfg, s, actions[0]);
      UnusedForever(cfg, Step(cfg, s, actions[0]), actions[1..]);
    }
  }

  /** With a threshold of zero no session ever serves a link. */
  lemma ZeroServesNobody(cfg: Config, k: nat, actions: seq<Action>, g: nat)
    requires cfg.threshold == 0 && g < |Run(cfg, Init(k), actions).seedings|
    ensures Run(cfg, Init(k), actions).seedings[g].served == 0
  {
    UnusedForever(cfg, Init(k), actions);
  }
}
