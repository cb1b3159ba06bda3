/** Who may ask the store: the holder of the lock, or a worker that was refused it and has waited its time out. */
module DebounceWaiting {
  import opened Options
  import opened DebounceProtocol
  import opened DebounceFreshness

  /** At action `i` worker `w` tried for the lock of `c` while it was taken. */
  ghost predicate Refused(tr: seq<State>, actions: seq<Action>, i: nat, w: WorkerId, c: Component)
    requires |tr| == |actions| + 1
  {
    Resumes(tr, actions, i, w, c, TryLock) && c in tr[i].locks
  }

  /** At action `i` worker `w` got the lock of `c`, which nobody held. */
  ghost predicate Granted(tr: seq<State>, actions: seq<Action>, i: nat, w: WorkerId, c: Component)
    requires |tr| == |actions| + 1
  {
    Resumes(tr, actions, i, w, c, TryLock) && c !in tr[i].locks
  }

  /** Refused within the resolve that began at `b`, and told to wait until `deadline`. */
  ghost predicate Barred(cfg: Config, tr: seq<State>, actions: seq<Action>, b: nat, n: nat, w: WorkerId, c: Component, deadline: int)
    requires |tr| == |actions| + 1
  {
    exists i: nat :: b < i < n && Refused(tr, actions, i, w, c) && deadline == tr[i].clock + cfg.lockWaitTimeoutMs
  }

  ghost predicate GrantedBetween(tr: seq<State>, actions: seq<Action>, b: nat, n: nat, w: WorkerId, c: Component)
    requires |tr| == |actions| + 1
  {
    exists i: nat :: b < i < n && Granted(tr, actions, i, w, c)
  }

  /** At action `j` the waiting worker looked at the clock and found its deadline past. */
  ghost predicate GaveUp(cfg: Config, tr: seq<State>, actions: seq<Action>, b: nat, j: nat, w: WorkerId, c: Component)
    requires |tr| == |actions| + 1
  {
    exists deadline: int ::
      Resumes(tr, actions, j, w, c, PollCheck(deadline)) && deadline <= tr[j].clock && Barred(cfg, tr, actions, b, j, w, c, deadline)
  }

  ghost predicate WaitedOut(cfg: Config, tr: seq<State>, actions: seq<Action>, b: nat, n: nat, w: WorkerId, c: Component)
    requires |tr| == |actions| + 1
  {
    exists j: nat :: b < j < n && GaveUp(cfg, tr, actions, b, j, w, c)
  }

  function Deadline(p: Phase): Option<int> {
    match p
    case PollCheck(d) => Some(d)
    case PollRead(d) => Some(d)
    case PollJudge(d, _) => Some(d)
    case _ => None
  }

  /** What a worker in phase `p` of a resolve begun at `b` must have been through. */
  ghost predicate Queued(cfg: Config, tr: seq<State>, actions: seq<Action>, b: nat, n: nat, w: WorkerId, c: Component, p: Phase)
    requires |tr| == |actions| + 1
  {
    && (Deadline(p).Some? ==> Barred(cfg, tr, actions, b, n, w, c, Deadline(p).value))
    && (AsksStore(p) && p.holds ==> GrantedBetween(tr, actions, b, n, w, c))
    && (AsksStore(p) && !p.holds ==> WaitedOut(cfg, tr, actions, b, n, w, c))
  }

  ghost predicate InTurn(cfg: Config, tr: seq<State>, actions: seq<Action>, n: nat, w: WorkerId)
    requires n < |tr| == |actions| + 1
  {
    w < |tr[n].workers| && !tr[n].workers[w].phase.Idle? ==>
      exists b: nat :: Since(tr, actions, b, n, w, tr[n].workers[w].component)
        && Queued(cfg, tr, actions, b, n, w, tr[n].workers[w].component, tr[n].workers[w].phase)
  }

  // ---------------------------------------------------------------- one step

  /** Neither the deadline nor the way into the store changes. */
  predicate SameTurn(p: Phase, q: Phase) {
    && (Deadline(q).Some? ==> Deadline(q) == Deadline(p))
    && (AsksStore(q) ==> AsksStore(p) && q.holds == p.holds)
  }

  lemma StaysInTurn(cfg: Config, tr: seq<State>, actions: seq<Action>, n: nat, w: WorkerId)
    requires |tr| == |actions| + 1 && n < |actions| && InTurn(cfg, tr, actions, n, w)
    requires |tr[n].workers| == |tr[n + 1].workers|
    requires w < |tr[n].workers| ==>
      && (tr[n].workers[w].phase.Idle? ==> tr[n + 1].workers[w].phase.Idle?)
      && tr[n + 1].workers[w].component == tr[n].workers[w].component
      && SameTurn(tr[n].workers[w].phase, tr[n + 1].workers[w].phase)
    ensures InTurn(cfg, tr, actions, n + 1, w)
  {
    if w < |tr[n].workers| && !tr[n + 1].workers[w].phase.Idle? {
      var c, p, q := tr[n].workers[w].component, tr[n].workers[w].phase, tr[n + 1].workers[w].phase;
      var b: nat :| Since(tr, actions, b, n, w, c) && Queued(cfg, tr, actions, b, n, w, c, p);
      assert Since(tr, actions, b, n + 1, w, c);
      assert Queued(cfg, tr, actions, b, n + 1, w, c, q);
    }
  }

  lemma TryInTurn(cfg: Config, tr: seq<State>, actions: seq<Action>, n: nat, w: WorkerId)
    requires Advances(cfg, tr, actions, n, w) && InTurn(cfg, tr, actions, n, w) && tr[n].workers[w].phase.TryLock?
    ensures InTurn(cfg, tr, actions, n + 1, w)
  {
    var c, q := tr[n].workers[w].component, tr[n + 1].workers[w].phase;
    var b: nat :| Since(tr, actions, b, n, w, c);
    assert Since(tr, actions, b, n + 1, w, c);
    if c in tr[n].locks {
      assert Refused(tr, actions, n, w, c);
      assert Barred(cfg, tr, actions, b, n + 1, w, c, tr[n].clock + cfg.lockWaitTimeoutMs);
    } else {
      assert Granted(tr, actions, n, w, c);
    }
    assert Queued(cfg, tr, actions, b, n + 1, w, c, q);
  }

  lemma CheckInTurn(cfg: Config, tr: seq<State>, actions: seq<Action>, n: nat, w: WorkerId)
    requires Advances(cfg, tr, actions, n, w) && InTurn(cfg, tr, actions, n, w) && tr[n].workers[w].phase.PollCheck?
    ensures InTurn(cfg, tr, actions, n + 1, w)
  {
    var c, p, q := tr[n].workers[w].component, tr[n].workers[w].phase, tr[n + 1].workers[w].phase;
    var b: nat :| Since(tr, actions, b, n, w, c) && Queued(cfg, tr, actions, b, n, w, c, p);
    assert Since(tr, actions, b, n + 1, w, c);
    if p.deadline <= tr[n].clock {
      assert Resumes(tr, actions, n, w, c, PollCheck(p.deadline));
      assert GaveUp(cfg, tr, actions, b, n, w, c);
    }
    assert Queued(cfg, tr, actions, b, n + 1, w, c, q);
  }

  lemma ProceedTurns(cfg: Config, s: State, w: WorkerId)
    requires w < |s.workers| && !s.workers[w].phase.TryLock? && !s.workers[w].phase.PollCheck?
    ensures var v, u := s.workers[w], Proceed(cfg, s, w).workers[w];
      && |Proceed(cfg, s, w).workers| == |s.workers| && u.component == v.component
      && (v.phase.Idle? ==> u.phase.Idle?) && SameTurn(v.phase, u.phase)
  {
  }

  lemma FaultTurns(cfg: Config, s: State, a: Action)
    requires Faults(a) && a.w < |s.workers|
    ensures var v, u := s.workers[a.w], Step(cfg, s, a).workers[a.w];
      && |Step(cfg, s, a).workers| == |s.workers| && u.component == v.component
      && (v.phase.Idle? ==> u.phase.Idle?) && SameTurn(v.phase, u.phase)
  {
  }

  lemma StepInTurn(cfg: Config, k: nat, tr: seq<State>, actions: seq<Action>, n: nat, w: WorkerId)
    requires IsTrace(cfg, k, tr, actions) && n < |actions| && InTurn(cfg, tr, actions, n, w)
    ensures InTurn(cfg, tr, actions, n + 1, w)
  {
    var s, a := tr[n], actions[n];
    assert tr[n + 1] == Step(cfg, s, a);
    if Outside(a) || a.w != w {
      OthersWait(cfg, s, a, w);
      StaysInTurn(cfg, tr, actions, n, w);
    } else if w < |s.workers| {
      if Faults(a) {
        FaultTurns(cfg, s, a);
        StaysInTurn(cfg, tr, actions, n, w);
      } else if a.Start? {
        if s.workers[w].phase.Idle? {
          assert Since(tr, actions, n, n + 1, w, a.component);
          assert Queued(cfg, tr, actions, n, n + 1, w, a.component, ReadSession);
        } else {
          StaysInTurn(cfg, tr, actions, n, w);
        }
      } else if s.workers[w].phase.TryLock? {
        TryInTurn(cfg, tr, actions, n, w);
      } else if s.workers[w].phase.PollCheck? {
        CheckInTurn(cfg, tr, actions, n, w);
      } else {
        ProceedTurns(cfg, s, w);
        StaysInTurn(cfg, tr, actions, n, w);
      }
    } else {
      assert |tr[n + 1].workers| == |s.workers|;
    }
  }

  lemma {:induction false} AlwaysInTurn(cfg: Config, k: nat, tr: seq<State>, actions: seq<Action>, n: nat, w: WorkerId)
    requires IsTrace(cfg, k, tr, actions) && n < |tr|
    ensures InTurn(cfg, tr, actions, n, w)
  {
    if n > 0 {
      AlwaysInTurn(cfg, k, tr, actions, n - 1, w);
      StepInTurn(cfg, k, tr, actions, n - 1, w);
    }
  }

  /**
   * On every run, a worker that is about to ask the store was granted the lock in this
   * resolve when nobody held it, or was refused it and has since seen the clock at least
   * the waiting time later.
   */
  lemma StoreIsAskedInTurn(cfg: Config, k: nat, tr: seq<State>, actions: seq<Action>, n: nat, w: WorkerId)
    requires IsTrace(cfg, k, tr, actions) && n < |tr| && w < |tr[n].workers| && AsksStore(tr[n].workers[w].phase)
    ensures exists b: nat ::
      && Since(tr, actions, b, n, w, tr[n].workers[w].component)
      && (tr[n].workers[w].phase.holds ==> GrantedBetween(tr, actions, b, n, w, tr[n].workers[w].component))
      && (!tr[n].workers[w].phase.holds ==> WaitedOut(cfg, tr, actions, b, n, w, tr[n].workers[w].component))
  {
    AlwaysInTurn(cfg, k, tr, actions, n, w);
  }
}
