/**
 * How old a link can be. On every run, what a worker returns was active when it asked the
 * store, or is named by a session that it read and judged inside the window of a stamp
 * made after somebody had found the item active. A worker asks the store only with the
 * lock, or after waiting its time out.
 */
module DebounceFreshness {
  import opened Options
  import opened DebounceProtocol

  /** The states of the run `actions` of `k` workers, one after the other. */
  ghost predicate IsTrace(cfg: Config, k: nat, tr: seq<State>, actions: seq<Action>) {
    && |tr| == |actions| + 1
    && tr[0] == Init(k)
    && forall i :: 0 <= i < |actions| ==> tr[i + 1] == Step(cfg, tr[i], actions[i])
  }

  /** Action `i` resumes worker `w`, which is resolving a signal of `c` and stands in phase `p`. */
  ghost predicate Resumes(tr: seq<State>, actions: seq<Action>, i: nat, w: WorkerId, c: Component, p: Phase)
    requires |tr| == |actions| + 1
  {
    i < |actions| && actions[i] == Advance(w) && w < |tr[i].workers| && tr[i].workers[w] == Worker(c, p)
  }

  predicate AsksStore(p: Phase) { p.Find? || p.Insert? || p.FindWinner? }

  /** At action `i` worker `w` asked the store and `item` was the active item of `c`. */
  ghost predicate Saw(tr: seq<State>, actions: seq<Action>, i: nat, w: WorkerId, c: Component, item: ItemId)
    requires |tr| == |actions| + 1
  {
    exists p :: Resumes(tr, actions, i, w, c, p) && AsksStore(p) && IsActive(tr[i + 1].items, c, item)
  }

  /** Before action `n` somebody who had seen `item` active took `startedAt` from the clock for a session of it. */
  ghost predicate Stamped(tr: seq<State>, actions: seq<Action>, n: nat, c: Component, item: ItemId, startedAt: int)
    requires |tr| == |actions| + 1
  {
    exists i: nat, j: nat, v, p ::
      && i < j < n && Saw(tr, actions, i, v, c, item)
      && Resumes(tr, actions, j, v, c, p) && p.StampSeed? && p.link.item == item && tr[j].clock == startedAt
  }

  /** At action `m` worker `w` judged a session it had read: below the threshold, and stamped less than a window ago. */
  ghost predicate Judged(cfg: Config, tr: seq<State>, actions: seq<Action>, m: nat, w: WorkerId, c: Component, item: ItemId)
    requires |tr| == |actions| + 1
  {
    exists p, count: nat, startedAt: int, gen: nat ::
      && Resumes(tr, actions, m, w, c, p) && RawOf(p) == Some(Seeded(item, count, startedAt, gen))
      && count < cfg.threshold && tr[m].clock - startedAt < cfg.windowMs
      && Stamped(tr, actions, m, c, item, startedAt)
  }

  /** Worker `w` started on `c` at action `b` and has been busy with it up to state `n`. */
  ghost predicate Since(tr: seq<State>, actions: seq<Action>, b: nat, n: nat, w: WorkerId, c: Component)
    requires |tr| == |actions| + 1
  {
    && b < n < |tr| && actions[b] == Start(w, c)
    && forall i :: b < i <= n ==> w < |tr[i].workers| && tr[i].workers[w].component == c && !tr[i].workers[w].phase.Idle?
  }

  ghost predicate SawBetween(tr: seq<State>, actions: seq<Action>, b: nat, n: nat, w: WorkerId, c: Component, item: ItemId)
    requires |tr| == |actions| + 1
  {
    exists i: nat :: b < i < n && Saw(tr, actions, i, w, c, item)
  }

  ghost predicate JudgedBetween(cfg: Config, tr: seq<State>, actions: seq<Action>, b: nat, n: nat, w: WorkerId, c: Component, item: ItemId)
    requires |tr| == |actions| + 1
  {
    exists m: nat :: b < m < n && Judged(cfg, tr, actions, m, w, c, item)
  }

  /** Where a link comes from: the store, or, unless it claims a creation, a session judged fresh. */
  ghost predicate LinkFrom(cfg: Config, tr: seq<State>, actions: seq<Action>, b: nat, n: nat, w: WorkerId, c: Component, link: Link)
    requires |tr| == |actions| + 1
  {
    SawBetween(tr, actions, b, n, w, c, link.item) || (!link.created && JudgedBetween(cfg, tr, actions, b, n, w, c, link.item))
  }

  ghost predicate PhaseFrom(cfg: Config, tr: seq<State>, actions: seq<Action>, b: nat, n: nat, w: WorkerId, c: Component, p: Phase)
    requires |tr| == |actions| + 1
  {
    && (RawOf(p).Some? && RawOf(p).value.Seeded? ==> Stamped(tr, actions, n, c, RawOf(p).value.item, RawOf(p).value.startedAt))
    && (Carried(p).Some? ==> LinkFrom(cfg, tr, actions, b, n, w, c, Carried(p).value))
    && (p.Bump? ==> JudgedBetween(cfg, tr, actions, b, n, w, c, p.item))
    && (p.StampSeed? ==> SawBetween(tr, actions, b, n, w, c, p.link.item))
    && (p.WriteSeed? ==> Stamped(tr, actions, n, c, p.link.item, p.startedAt))
  }

  ghost predicate WorkerFrom(cfg: Config, tr: seq<State>, actions: seq<Action>, n: nat, w: WorkerId)
    requires n < |tr| == |actions| + 1
  {
    w < |tr[n].workers| && !tr[n].workers[w].phase.Idle? ==>
      exists b: nat :: Since(tr, actions, b, n, w, tr[n].workers[w].component)
        && PhaseFrom(cfg, tr, actions, b, n, w, tr[n].workers[w].component, tr[n].workers[w].phase)
  }

  ghost predicate SessionsFrom(tr: seq<State>, actions: seq<Action>, n: nat)
    requires n < |tr| == |actions| + 1
  {
    forall c :: c in tr[n].sessions && tr[n].sessions[c].Seeded? ==>
      Stamped(tr, actions, n, c, tr[n].sessions[c].item, tr[n].sessions[c].startedAt)
  }

  /** The resolve that returned `r` started at some `b`, ended at some `e`, and found its link in between. */
  ghost predicate ResultFrom(cfg: Config, tr: seq<State>, actions: seq<Action>, n: nat, r: Result)
    requires n < |tr| == |actions| + 1
  {
    exists b: nat, e: nat ::
      && e < n && Since(tr, actions, b, e, r.worker, r.component)
      && Resumes(tr, actions, e, r.worker, r.component, Return(r.link))
      && LinkFrom(cfg, tr, actions, b, e, r.worker, r.component, r.link)
  }

  ghost predicate ResultsFrom(cfg: Config, tr: seq<State>, actions: seq<Action>, n: nat)
    requires n < |tr| == |actions| + 1
  {
    forall r :: r in tr[n].results ==> ResultFrom(cfg, tr, actions, n, r)
  }

  ghost predicate From(cfg: Config, tr: seq<State>, actions: seq<Action>, n: nat)
    requires n < |tr| == |actions| + 1
  {
    && (forall w: WorkerId :: WorkerFrom(cfg, tr, actions, n, w))
    && SessionsFrom(tr, actions, n)
    && ResultsFrom(cfg, tr, actions, n)
  }

  // ---------------------------------------------------------------- one step

  /** A worker that is not resumed keeps what it has. */
  lemma Waits(cfg: Config, tr: seq<State>, actions: seq<Action>, n: nat, w: WorkerId)
    requires |tr| == |actions| + 1 && n < |actions| && WorkerFrom(cfg, tr, actions, n, w)
    requires |tr[n + 1].workers| == |tr[n].workers|
    requires w < |tr[n].workers| ==> tr[n + 1].workers[w] == tr[n].workers[w]
    ensures WorkerFrom(cfg, tr, actions, n + 1, w)
  {
    if w < |tr[n].workers| && !tr[n].workers[w].phase.Idle? {
      var c, p := tr[n].workers[w].component, tr[n].workers[w].phase;
      var b: nat :| Since(tr, actions, b, n, w, c) && PhaseFrom(cfg, tr, actions, b, n, w, c, p);
      assert Since(tr, actions, b, n + 1, w, c);
      assert PhaseFrom(cfg, tr, actions, b, n + 1, w, c, p);
    }
  }

  /** Moving on to a phase that carries nothing, or to rest. */
  lemma Drops(cfg: Config, tr: seq<State>, actions: seq<Action>, n: nat, w: WorkerId)
    requires |tr| == |actions| + 1 && n < |actions| && WorkerFrom(cfg, tr, actions, n, w)
    requires w < |tr[n].workers| == |tr[n + 1].workers| && !tr[n].workers[w].phase.Idle?
    requires tr[n + 1].workers[w].component == tr[n].workers[w].component
    requires var p := tr[n + 1].workers[w].phase; RawOf(p).None? && Carried(p).None?
    ensures WorkerFrom(cfg, tr, actions, n + 1, w)
  {
    var c, p := tr[n].workers[w].component, tr[n + 1].workers[w].phase;
    var b: nat :| Since(tr, actions, b, n, w, c);
    if !p.Idle? {
      assert Since(tr, actions, b, n + 1, w, c);
      assert PhaseFrom(cfg, tr, actions, b, n + 1, w, c, p);
    }
  }

  /** Carrying the link one await further. */
  lemma Keeps(cfg: Config, tr: seq<State>, actions: seq<Action>, n: nat, w: WorkerId)
    requires |tr| == |actions| + 1 && n < |actions| && WorkerFrom(cfg, tr, actions, n, w)
    requires w < |tr[n].workers| == |tr[n + 1].workers| && !tr[n].workers[w].phase.Idle?
    requires tr[n + 1].workers[w].component == tr[n].workers[w].component
    requires var p, q := tr[n].workers[w].phase, tr[n + 1].workers[w].phase;
      RawOf(q).None? && !q.Bump? && !q.StampSeed? && !q.WriteSeed? && Carried(q) == Carried(p)
    ensures WorkerFrom(cfg, tr, actions, n + 1, w)
  {
    var c, p, q := tr[n].workers[w].component, tr[n].workers[w].phase, tr[n + 1].workers[w].phase;
    var b: nat :| Since(tr, actions, b, n, w, c) && PhaseFrom(cfg, tr, actions, b, n, w, c, p);
    if !q.Idle? {
      assert Since(tr, actions, b, n + 1, w, c);
      assert PhaseFrom(cfg, tr, actions, b, n + 1, w, c, q);
    }
  }

  ghost predicate Advances(cfg: Config, tr: seq<State>, actions: seq<Action>, n: nat, w: WorkerId)
  {
    && |tr| == |actions| + 1 && n < |actions| && actions[n] == Advance(w) && w < |tr[n].workers|
    && tr[n + 1] == Proceed(cfg, tr[n], w)
  }

  /** Reading a session. */
  lemma ReadFrom(cfg: Config, tr: seq<State>, actions: seq<Action>, n: nat, w: WorkerId)
    requires Advances(cfg, tr, actions, n, w) && From(cfg, tr, actions, n)
    requires tr[n].workers[w].phase.ReadSession? || tr[n].workers[w].phase.PollRead?
    ensures WorkerFrom(cfg, tr, actions, n + 1, w)
  {
    var c, q := tr[n].workers[w].component, tr[n + 1].workers[w].phase;
    assert WorkerFrom(cfg, tr, actions, n, w);
    var b: nat :| Since(tr, actions, b, n, w, c);
    assert RawOf(q) == Fetch(tr[n], c);
    assert Since(tr, actions, b, n + 1, w, c);
    assert PhaseFrom(cfg, tr, actions, b, n + 1, w, c, q);
  }

  /** A worker still busy, with what its new phase needs. */
  lemma StepsInto(cfg: Config, tr: seq<State>, actions: seq<Action>, b: nat, n: nat, w: WorkerId, c: Component)
    requires |tr| == |actions| + 1 && n < |actions| && Since(tr, actions, b, n, w, c)
    requires w < |tr[n + 1].workers| && tr[n + 1].workers[w].component == c && !tr[n + 1].workers[w].phase.Idle?
    requires PhaseFrom(cfg, tr, actions, b, n + 1, w, c, tr[n + 1].workers[w].phase)
    ensures WorkerFrom(cfg, tr, actions, n + 1, w)
  {
    assert Since(tr, actions, b, n + 1, w, c);
  }

  /** Only a session that is seeded, below the threshold and inside the window makes its reader increment it. */
  lemma JudgingIsFresh(cfg: Config, s: State, w: WorkerId)
    requires w < |s.workers| && (s.workers[w].phase.JudgeSession? || s.workers[w].phase.PollJudge?)
    ensures var raw, u := RawOf(s.workers[w].phase), Proceed(cfg, s, w).workers[w];
      && u.component == s.workers[w].component
      && (u.phase.Bump? <==>
            raw.Some? && raw.value.Seeded? && raw.value.count < cfg.threshold && s.clock - raw.value.startedAt < cfg.windowMs)
      && (u.phase.Bump? ==> u.phase == Bump(raw.value.item, raw.value.gen))
      && (!u.phase.Bump? ==> u.phase == if s.workers[w].phase.JudgeSession? then TryLock else PollCheck(s.workers[w].phase.deadline))
  {
  }

  /** Judging it. */
  lemma JudgeFrom(cfg: Config, tr: seq<State>, actions: seq<Action>, n: nat, w: WorkerId)
    requires Advances(cfg, tr, actions, n, w) && From(cfg, tr, actions, n)
    requires tr[n].workers[w].phase.JudgeSession? || tr[n].workers[w].phase.PollJudge?
    ensures WorkerFrom(cfg, tr, actions, n + 1, w)
  {
    var c, p, q := tr[n].workers[w].component, tr[n].workers[w].phase, tr[n + 1].workers[w].phase;
    assert WorkerFrom(cfg, tr, actions, n, w);
    if q.Bump? {
      var b: nat :| Since(tr, actions, b, n, w, c) && PhaseFrom(cfg, tr, actions, b, n, w, c, p);
      JudgingIsFresh(cfg, tr[n], w);
      var h := RawOf(p).value;
      assert Resumes(tr, actions, n, w, c, p) && RawOf(p) == Some(Seeded(h.item, h.count, h.startedAt, h.gen));
      assert Judged(cfg, tr, actions, n, w, c, q.item);
      assert JudgedBetween(cfg, tr, actions, b, n + 1, w, c, q.item);
      StepsInto(cfg, tr, actions, b, n, w, c);
    } else {
      Drops(cfg, tr, actions, n, w);
    }
  }

  /** Asking the store. */
  lemma AskFrom(cfg: Config, tr: seq<State>, actions: seq<Action>, n: nat, w: WorkerId)
    requires Advances(cfg, tr, actions, n, w) && From(cfg, tr, actions, n) && AsksStore(tr[n].workers[w].phase)
    ensures WorkerFrom(cfg, tr, actions, n + 1, w)
  {
    var c, p, q := tr[n].workers[w].component, tr[n].workers[w].phase, tr[n + 1].workers[w].phase;
    assert WorkerFrom(cfg, tr, actions, n, w);
    if q.StampSeed? {
      var b: nat :| Since(tr, actions, b, n, w, c) && PhaseFrom(cfg, tr, actions, b, n, w, c, p);
      assert Resumes(tr, actions, n, w, c, p);
      assert Saw(tr, actions, n, w, c, q.link.item);
      assert Since(tr, actions, b, n + 1, w, c);
      assert SawBetween(tr, actions, b, n + 1, w, c, q.link.item);
      assert PhaseFrom(cfg, tr, actions, b, n + 1, w, c, q);
    } else {
      Drops(cfg, tr, actions, n, w);
    }
  }

  /** Taking the stamp. */
  lemma StampFrom(cfg: Config, tr: seq<State>, actions: seq<Action>, n: nat, w: WorkerId)
    requires Advances(cfg, tr, actions, n, w) && From(cfg, tr, actions, n) && tr[n].workers[w].phase.StampSeed?
    ensures WorkerFrom(cfg, tr, actions, n + 1, w)
  {
    var c, p, q := tr[n].workers[w].component, tr[n].workers[w].phase, tr[n + 1].workers[w].phase;
    assert WorkerFrom(cfg, tr, actions, n, w);
    var b: nat :| Since(tr, actions, b, n, w, c) && PhaseFrom(cfg, tr, actions, b, n, w, c, p);
    var i: nat :| b < i < n && Saw(tr, actions, i, w, c, p.link.item);
    assert Resumes(tr, actions, n, w, c, p);
    assert Stamped(tr, actions, n + 1, c, p.link.item, tr[n].clock);
    assert q == WriteSeed(p.holds, p.link, tr[n].clock);
    assert LinkFrom(cfg, tr, actions, b, n + 1, w, c, p.link);
    StepsInto(cfg, tr, actions, b, n, w, c);
  }

  /** At the other awaits nothing new is taken in hand. */
  lemma PassesOn(cfg: Config, s: State, w: WorkerId)
    requires w < |s.workers|
    requires var p := s.workers[w].phase;
      p.TryLock? || p.PollCheck? || p.Bump? || p.WriteSeed? || p.ExpireSeed? || p.Unlock? || p.Return?
    ensures |Proceed(cfg, s, w).workers| == |s.workers|
    ensures var v, u := s.workers[w], Proceed(cfg, s, w).workers[w];
      && u.component == v.component && RawOf(u.phase).None?
      && (Carried(u.phase).None? || (Carried(u.phase) == Carried(v.phase) && !u.phase.Bump? && !u.phase.StampSeed? && !u.phase.WriteSeed?))
  {
  }

  lemma HandsOn(cfg: Config, tr: seq<State>, actions: seq<Action>, n: nat, w: WorkerId)
    requires |tr| == |actions| + 1 && n < |actions| && WorkerFrom(cfg, tr, actions, n, w)
    requires w < |tr[n].workers| == |tr[n + 1].workers| && !tr[n].workers[w].phase.Idle?
    requires var v, u := tr[n].workers[w], tr[n + 1].workers[w];
      && u.component == v.component && RawOf(u.phase).None?
      && (Carried(u.phase).None? || (Carried(u.phase) == Carried(v.phase) && !u.phase.Bump? && !u.phase.StampSeed? && !u.phase.WriteSeed?))
    ensures WorkerFrom(cfg, tr, actions, n + 1, w)
  {
    if Carried(tr[n + 1].workers[w].phase).None? { Drops(cfg, tr, actions, n, w); } else { Keeps(cfg, tr, actions, n, w); }
  }

  lemma AdvanceFrom(cfg: Config, tr: seq<State>, actions: seq<Action>, n: nat, w: WorkerId)
    requires Advances(cfg, tr, actions, n, w) && From(cfg, tr, actions, n)
    ensures WorkerFrom(cfg, tr, actions, n + 1, w)
  {
    assert WorkerFrom(cfg, tr, actions, n, w);
    var p := tr[n].workers[w].phase;
    if p.Idle? { Waits(cfg, tr, actions, n, w); }
    else if p.ReadSession? || p.PollRead? { ReadFrom(cfg, tr, actions, n, w); }
    else if p.JudgeSession? || p.PollJudge? { JudgeFrom(cfg, tr, actions, n, w); }
    else if p.StampSeed? { StampFrom(cfg, tr, actions, n, w); }
    else if AsksStore(p) { AskFrom(cfg, tr, actions, n, w); }
    else { PassesOn(cfg, tr[n], w); HandsOn(cfg, tr, actions, n, w); }
  }

  predicate Outside(a: Action) { a.Tick? || a.ExpireSession? || a.DropLock? || a.ForeignLock? || a.CloseItem? }

  lemma ProceedMovesOne(cfg: Config, s: State, v: WorkerId, w: WorkerId)
    requires v < |s.workers| && v != w
    ensures |Proceed(cfg, s, v).workers| == |s.workers|
    ensures w < |s.workers| ==> Proceed(cfg, s, v).workers[w] == s.workers[w]
  {
  }

  lemma OutsideMovesNone(cfg: Config, s: State, a: Action)
    requires Outside(a)
    ensures Step(cfg, s, a).workers == s.workers
  {
  }

  /** Every action but a worker's own leaves it alone. */
  lemma OthersWait(cfg: Config, s: State, a: Action, w: WorkerId)
    requires Outside(a) || a.w != w
    ensures |Step(cfg, s, a).workers| == |s.workers|
    ensures w < |s.workers| ==> Step(cfg, s, a).workers[w] == s.workers[w]
  {
    if Outside(a) { OutsideMovesNone(cfg, s, a); }
    else if a.Advance? { if a.w < |s.workers| { ProceedMovesOne(cfg, s, a.w, w); } }
  }

  predicate Faults(a: Action) { a.LoseAck? || a.Abort? || a.Throw? || a.LoseReply? }

  /** A fault leaves its worker with nothing in hand. */
  lemma FaultEmpties(cfg: Config, s: State, a: Action)
    requires Faults(a) && a.w < |s.workers|
    ensures var u := Step(cfg, s, a).workers;
      && |u| == |s.workers| && u[a.w].component == s.workers[a.w].component
      && (u[a.w] == s.workers[a.w] || (RawOf(u[a.w].phase).None? && Carried(u[a.w].phase).None?))
      && (s.workers[a.w].phase.Idle? ==> u[a.w].phase.Idle?)
  {
  }

  lemma WorkersFrom(cfg: Config, k: nat, tr: seq<State>, actions: seq<Action>, n: nat, w: WorkerId)
    requires IsTrace(cfg, k, tr, actions) && n < |actions| && From(cfg, tr, actions, n)
    ensures WorkerFrom(cfg, tr, actions, n + 1, w)
  {
    var s, a := tr[n], actions[n];
    assert tr[n + 1] == Step(cfg, s, a);
    assert WorkerFrom(cfg, tr, actions, n, w);
    if Outside(a) || a.w != w {
      OthersWait(cfg, s, a, w);
      Waits(cfg, tr, actions, n, w);
    } else if w < |s.workers| {
      if a.Advance? {
        AdvanceFrom(cfg, tr, actions, n, w);
      } else if a.Start? {
        if s.workers[w].phase.Idle? {
          assert Since(tr, actions, n, n + 1, w, a.component);
          assert PhaseFrom(cfg, tr, actions, n, n + 1, w, a.component, ReadSession);
        } else {
          Waits(cfg, tr, actions, n, w);
        }
      } else {
        FaultEmpties(cfg, s, a);
        if tr[n + 1].workers[w] == s.workers[w] { Waits(cfg, tr, actions, n, w); }
        else if !s.workers[w].phase.Idle? { Drops(cfg, tr, actions, n, w); }
      }
    } else {
      assert |tr[n + 1].workers| == |s.workers|;
    }
  }

  /** A session after a step is the one before, with another count, or the one a worker was about to write. */
  lemma SessionSources(cfg: Config, s: State, a: Action, c: Component)
    requires var u := Step(cfg, s, a); c in u.sessions && u.sessions[c].Seeded?
    ensures var h := Step(cfg, s, a).sessions[c];
      || (c in s.sessions && s.sessions[c].Seeded? && s.sessions[c].item == h.item && s.sessions[c].startedAt == h.startedAt)
      || ((a.Advance? || a.LoseReply?) && a.w < |s.workers| && s.workers[a.w].component == c && s.workers[a.w].phase.WriteSeed?
          && s.workers[a.w].phase.link.item == h.item && s.workers[a.w].phase.startedAt == h.startedAt)
  {
  }

  lemma SessionsFromNext(cfg: Config, k: nat, tr: seq<State>, actions: seq<Action>, n: nat)
    requires IsTrace(cfg, k, tr, actions) && n < |actions| && From(cfg, tr, actions, n)
    ensures SessionsFrom(tr, actions, n + 1)
  {
    var s, a := tr[n], actions[n];
    assert tr[n + 1] == Step(cfg, s, a);
    var u := tr[n + 1];
    forall c | c in u.sessions && u.sessions[c].Seeded?
      ensures Stamped(tr, actions, n + 1, c, u.sessions[c].item, u.sessions[c].startedAt)
    {
      var h := u.sessions[c];
      SessionSources(cfg, s, a, c);
      if !(c in s.sessions && s.sessions[c].Seeded? && s.sessions[c].item == h.item && s.sessions[c].startedAt == h.startedAt) {
        assert WorkerFrom(cfg, tr, actions, n, a.w);
      }
      assert Stamped(tr, actions, n, c, h.item, h.startedAt);
    }
  }

  lemma ResultsGrow(cfg: Config, s: State, a: Action)
    ensures var u := Step(cfg, s, a);
      || u.results == s.results
      || (a.Advance? && a.w < |s.workers| && s.workers[a.w].phase.Return?
          && u.results == s.results + [Result(a.w, s.workers[a.w].component, s.workers[a.w].phase.link)])
  {
  }

  lemma ResultStays(cfg: Config, tr: seq<State>, actions: seq<Action>, n: nat, r: Result)
    requires n + 1 < |tr| == |actions| + 1 && ResultFrom(cfg, tr, actions, n, r)
    ensures ResultFrom(cfg, tr, actions, n + 1, r)
  {
  }

  lemma ResultsFromNext(cfg: Config, k: nat, tr: seq<State>, actions: seq<Action>, n: nat)
    requires IsTrace(cfg, k, tr, actions) && n < |actions| && From(cfg, tr, actions, n)
    ensures ResultsFrom(cfg, tr, actions, n + 1)
  {
    var s, a := tr[n], actions[n];
    assert tr[n + 1] == Step(cfg, s, a);
    ResultsGrow(cfg, s, a);
    var u := tr[n + 1];
    forall r | r in u.results ensures ResultFrom(cfg, tr, actions, n + 1, r) {
      if r in s.results {
        ResultStays(cfg, tr, actions, n, r);
      } else {
        var c, p := s.workers[a.w].component, s.workers[a.w].phase;
        assert WorkerFrom(cfg, tr, actions, n, a.w);
        var b: nat :| Since(tr, actions, b, n, a.w, c) && PhaseFrom(cfg, tr, actions, b, n, a.w, c, p);
        assert r == Result(a.w, c, p.link) && Resumes(tr, actions, n, a.w, c, Return(r.link));
      }
    }
  }

  lemma {:induction false} AlwaysFrom(cfg: Config, k: nat, tr: seq<State>, actions: seq<Action>, n: nat)
    requires IsTrace(cfg, k, tr, actions) && n < |tr|
    ensures From(cfg, tr, actions, n)
  {
    if n > 0 {
      AlwaysFrom(cfg, k, tr, actions, n - 1);
      forall w: WorkerId ensures WorkerFrom(cfg, tr, actions, n, w) { WorkersFrom(cfg, k, tr, actions, n - 1, w); }
      SessionsFromNext(cfg, k, tr, actions, n - 1);
      ResultsFromNext(cfg, k, tr, actions, n - 1);
    }
  }

  // ---------------------------------------------------------------- the theorems

  /** The states of a run, one after the other. */
  function TraceOf(cfg: Config, s: State, actions: seq<Action>): (tr: seq<State>)
    ensures |tr| == |actions| + 1 && tr[0] == s && tr[|actions|] == Run(cfg, s, actions)
    ensures forall i :: 0 <= i < |actions| ==> tr[i + 1] == Step(cfg, tr[i], actions[i])
    decreases |actions|
  {
    if actions == [] then [s] else [s] + TraceOf(cfg, Step(cfg, s, actions[0]), actions[1..])
  }

  lemma EveryRunHasTrace(cfg: Config, k: nat, actions: seq<Action>)
    ensures IsTrace(cfg, k, TraceOf(cfg, Init(k), actions), actions)
  {
  }

  lemma {:induction false} TraceEnds(cfg: Config, tr: seq<State>, actions: seq<Action>)
    requires |tr| == |actions| + 1 && forall i :: 0 <= i < |actions| ==> tr[i + 1] == Step(cfg, tr[i], actions[i])
    ensures tr[|actions|] == Run(cfg, tr[0], actions)
    decreases |actions|
  {
    if actions != [] {
      forall i | 0 <= i < |actions| - 1 ensures tr[1..][i + 1] == Step(cfg, tr[1..][i], actions[1..][i]) {
        assert tr[(i + 1) + 1] == Step(cfg, tr[i + 1], actions[i + 1]);
      }
      TraceEnds(cfg, tr[1..], actions[1..]);
      assert tr[0 + 1] == Step(cfg, tr[0], actions[0]);
    }
  }

  /**
   * On every run each link returned is of a resolve in which the worker either asked the
   * store and found the item active, or judged a session that it had read, below the
   * threshold, whose stamp is less than a window before the judging and was taken after
   * somebody had found the item active. Only the store makes a link that claims a creation.
   */
  lemma LinksAreFresh(cfg: Config, k: nat, tr: seq<State>, actions: seq<Action>, r: Result)
    requires IsTrace(cfg, k, tr, actions) && r in Run(cfg, Init(k), actions).results
    ensures exists b: nat, e: nat ::
      && e < |actions| && Since(tr, actions, b, e, r.worker, r.component)
      && Resumes(tr, actions, e, r.worker, r.component, Return(r.link))
      && (SawBetween(tr, actions, b, e, r.worker, r.component, r.link.item)
          || (!r.link.created && JudgedBetween(cfg, tr, actions, b, e, r.worker, r.component, r.link.item)))
  {
    TraceEnds(cfg, tr, actions);
    AlwaysFrom(cfg, k, tr, actions, |actions|);
    assert ResultFrom(cfg, tr, actions, |actions|, r);
    var b: nat, e: nat :|
      && e < |actions| && Since(tr, actions, b, e, r.worker, r.component)
      && Resumes(tr, actions, e, r.worker, r.component, Return(r.link))
      && LinkFrom(cfg, tr, actions, b, e, r.worker, r.component, r.link);
  }

  /** Whoever increments a session's count has judged that session inside the window and below the threshold. */
  lemma BumpsWereJudged(cfg: Config, k: nat, tr: seq<State>, actions: seq<Action>, n: nat, w: WorkerId)
    requires IsTrace(cfg, k, tr, actions) && n < |tr| && w < |tr[n].workers| && tr[n].workers[w].phase.Bump?
    ensures exists m: nat :: m < n && Judged(cfg, tr, actions, m, w, tr[n].workers[w].component, tr[n].workers[w].phase.item)
  {
    AlwaysFrom(cfg, k, tr, actions, n);
    assert WorkerFrom(cfg, tr, actions, n, w);
  }
}
