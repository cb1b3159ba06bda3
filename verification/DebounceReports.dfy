/** Which items are reported as created: the ones whose creator did not lose the news on the way. */
module DebounceReports {
  import opened Options
  import opened DebounceProtocol

  predicate Tells(link: Link, id: ItemId) { link == Link(id, true) }

  /** A result says that item `id` was created. */
  predicate Reported(s: State, id: ItemId) {
    exists i :: 0 <= i < |s.results| && Tells(s.results[i].link, id)
  }

  predicate CarriesNews(p: Phase, id: ItemId) { Carried(p).Some? && Tells(Carried(p).value, id) }

  /** A worker still has the news that item `id` was created. */
  predicate Carrying(s: State, id: ItemId) {
    exists w :: 0 <= w < |s.workers| && CarriesNews(s.workers[w].phase, id)
  }

  predicate Announced(s: State, id: ItemId) { Reported(s, id) || Carrying(s, id) }

  ghost predicate AllAnnounced(s: State) {
    forall id: ItemId :: id < |s.items| ==> Announced(s, id)
  }

  /** The insert commits and its reply is lost, or an await rejects while a worker carries the news. */
  predicate LosesNews(s: State, a: Action) {
    match a
    case LoseAck(w) =>
      w < |s.workers| && s.workers[w].phase.Insert? && FirstActive(s.items, s.workers[w].component).None?
    case Throw(w) => w < |s.workers| && Carried(s.workers[w].phase).Some? && Carried(s.workers[w].phase).value.created
    case LoseReply(w) => w < |s.workers| && Carried(s.workers[w].phase).Some? && Carried(s.workers[w].phase).value.created
    case _ => false
  }

  ghost predicate NothingLost(cfg: Config, s: State, actions: seq<Action>)
    decreases |actions|
  {
    actions == [] || (!LosesNews(s, actions[0]) && NothingLost(cfg, Step(cfg, s, actions[0]), actions[1..]))
  }

  // ---------------------------------------------------------------- steps that lose nothing

  /** One worker moves on and keeps what it carries. */
  lemma MoveAnnounces(s: State, t: State, w: WorkerId, id: ItemId)
    requires w < |s.workers| && |t.workers| == |s.workers| && s.results <= t.results
    requires forall v :: 0 <= v < |s.workers| && v != w ==> t.workers[v] == s.workers[v]
    requires CarriesNews(s.workers[w].phase, id) ==> CarriesNews(t.workers[w].phase, id) || Reported(t, id)
    requires Announced(s, id)
    ensures Announced(t, id)
  {
    if Reported(s, id) {
      var i :| 0 <= i < |s.results| && Tells(s.results[i].link, id);
      assert t.results[i] == s.results[i];
    } else {
      var v :| 0 <= v < |s.workers| && CarriesNews(s.workers[v].phase, id);
      assert v != w ==> CarriesNews(t.workers[v].phase, id);
    }
  }

  /** Moving on normally never drops a carried link, except by returning it. */
  lemma ProceedCarries(cfg: Config, s: State, w: WorkerId, id: ItemId)
    requires w < |s.workers| && CarriesNews(s.workers[w].phase, id)
    ensures CarriesNews(Proceed(cfg, s, w).workers[w].phase, id) || Reported(Proceed(cfg, s, w), id)
  {
    var t := Proceed(cfg, s, w);
    if s.workers[w].phase.Return? {
      assert Tells(t.results[|t.results| - 1].link, id);
    }
  }

  lemma ProceedFrame(cfg: Config, s: State, w: WorkerId)
    requires w < |s.workers|
    ensures var t := Proceed(cfg, s, w);
      && |t.workers| == |s.workers| && s.results <= t.results && |s.items| <= |t.items| <= |s.items| + 1
      && (forall v :: 0 <= v < |s.workers| && v != w ==> t.workers[v] == s.workers[v])
      && (|t.items| > |s.items| ==> CarriesNews(t.workers[w].phase, |s.items|))
  {
  }

  lemma ProceedAnnounces(cfg: Config, s: State, w: WorkerId)
    requires AllAnnounced(s) && w < |s.workers|
    ensures AllAnnounced(Proceed(cfg, s, w))
  {
    var t := Proceed(cfg, s, w);
    ProceedFrame(cfg, s, w);
    forall id: ItemId | id < |t.items| ensures Announced(t, id) {
      if id < |s.items| {
        if CarriesNews(s.workers[w].phase, id) { ProceedCarries(cfg, s, w, id); }
        MoveAnnounces(s, t, w, id);
      }
    }
  }

  /** A fault of worker `w` that carries no news leaves all other news where it is. */
  lemma FaultAnnounces(cfg: Config, s: State, a: Action, w: WorkerId)
    requires AllAnnounced(s) && w < |s.workers| && !LosesNews(s, a)
    requires a == LoseAck(w) || a == Abort(w) || a == Throw(w) || a == LoseReply(w)
    ensures AllAnnounced(Step(cfg, s, a))
  {
    var t := Step(cfg, s, a);
    forall id: ItemId | id < |t.items| ensures Announced(t, id) {
      MoveAnnounces(s, t, w, id);
    }
  }

  lemma StartAnnounces(cfg: Config, s: State, w: WorkerId, c: Component)
    requires AllAnnounced(s)
    ensures AllAnnounced(Step(cfg, s, Start(w, c)))
  {
    var t := Step(cfg, s, Start(w, c));
    if w < |s.workers| {
      forall id: ItemId | id < |t.items| ensures Announced(t, id) { MoveAnnounces(s, t, w, id); }
    }
  }

  lemma SameAnnounces(s: State, t: State)
    requires AllAnnounced(s) && t.workers == s.workers && t.results == s.results && |t.items| == |s.items|
    ensures AllAnnounced(t)
  {
    forall id: ItemId | id < |t.items| ensures Announced(t, id) { assert Announced(s, id); }
  }

  lemma StepAnnounces(cfg: Config, s: State, a: Action)
    requires AllAnnounced(s) && !LosesNews(s, a)
    ensures AllAnnounced(Step(cfg, s, a))
  {
    match a
    case Start(w, c) => StartAnnounces(cfg, s, w, c);
    case Advance(w) => if w < |s.workers| { ProceedAnnounces(cfg, s, w); }
    case LoseAck(w) => if w < |s.workers| { FaultAnnounces(cfg, s, a, w); }
    case Abort(w) => if w < |s.workers| { FaultAnnounces(cfg, s, a, w); }
    case Throw(w) => if w < |s.workers| { FaultAnnounces(cfg, s, a, w); }
    case LoseReply(w) => if w < |s.workers| { FaultAnnounces(cfg, s, a, w); }
    case _ => SameAnnounces(s, Step(cfg, s, a));
  }

  // ---------------------------------------------------------------- lost news stays lost

  predicate Silent(s: State, id: ItemId) { id < |s.items| && !Announced(s, id) }

  lemma SilentStep(cfg: Config, s: State, a: Action, id: ItemId)
    requires Silent(s, id)
    ensures Silent(Step(cfg, s, a), id)
  {
    assert forall w :: 0 <= w < |s.workers| ==> !CarriesNews(s.workers[w].phase, id);
    assert forall i :: 0 <= i < |s.results| ==> !Tells(s.results[i].link, id);
    match a
    case Advance(w) => if w < |s.workers| { SilentProceed(cfg, s, w, id); }
    case _ => SilentOther(cfg, s, a, id);
  }

  lemma SilentProceed(cfg: Config, s: State, w: WorkerId, id: ItemId)
    requires Silent(s, id) && w < |s.workers|
    ensures Silent(Proceed(cfg, s, w), id)
  {
    var t := Proceed(cfg, s, w);
    assert !CarriesNews(s.workers[w].phase, id);
    ProceedFrame(cfg, s, w);
    ProceedNews(cfg, s, w, id);
    assert forall v :: 0 <= v < |t.workers| ==> !CarriesNews(t.workers[v].phase, id) by {
      assert forall v :: 0 <= v < |s.workers| ==> !CarriesNews(s.workers[v].phase, id);
    }
    assert forall i :: 0 <= i < |t.results| ==> !Tells(t.results[i].link, id) by {
      assert forall i :: 0 <= i < |s.results| ==> !Tells(s.results[i].link, id);
    }
  }

  lemma ProceedNews(cfg: Config, s: State, w: WorkerId, id: ItemId)
    requires w < |s.workers| && id < |s.items| && !CarriesNews(s.workers[w].phase, id)
    ensures var t := Proceed(cfg, s, w);
      && !CarriesNews(t.workers[w].phase, id)
      && (forall i :: |s.results| <= i < |t.results| ==> !Tells(t.results[i].link, id))
  {
  }

  lemma SilentOther(cfg: Config, s: State, a: Action, id: ItemId)
    requires Silent(s, id) && !a.Advance?
    ensures Silent(Step(cfg, s, a), id)
  {
    var t := Step(cfg, s, a);
    assert t.results == s.results && |t.workers| == |s.workers| && |s.items| <= |t.items|;
    forall v | 0 <= v < |t.workers| ensures !CarriesNews(t.workers[v].phase, id) {
      assert !CarriesNews(s.workers[v].phase, id);
    }
  }

  lemma {:induction false} SilentForever(cfg: Config, s: State, actions: seq<Action>, id: ItemId)
    requires Silent(s, id)
    ensures Silent(Run(cfg, s, actions), id)
    decreases |actions|
  {
    if actions != [] {
      SilentStep(cfg, s, actions[0], id);
      SilentForever(cfg, Step(cfg, s, actions[0]), actions[1..], id);
    }
  }

  /** The news a step loses is nobody else's. */
  lemma LossIsSilent(cfg: Config, s: State, a: Action) returns (id: ItemId)
    requires Safe(s) && LosesNews(s, a)
    ensures Silent(Step(cfg, s, a), id)
  {
    var t := Step(cfg, s, a);
    var p := s.workers[a.w].phase;
    id := if a.LoseAck? then |s.items| else Carried(p).value.item;
    assert PhaseOk(s, a.w, s.workers[a.w].component, p);
    forall v | 0 <= v < |t.workers| ensures !CarriesNews(t.workers[v].phase, id) {
      assert PhaseOk(s, v, s.workers[v].component, s.workers[v].phase);
    }
    forall i | 0 <= i < |t.results| ensures !Tells(t.results[i].link, id) {
      assert s.results[i] in s.results && LinkOk(s.items, s.results[i].worker, s.results[i].component, s.results[i].link);
    }
  }

  // ---------------------------------------------------------------- the theorem

  lemma {:induction false} AnnouncedFrom(cfg: Config, s: State, actions: seq<Action>)
    requires Safe(s) && AllAnnounced(s)
    ensures AllAnnounced(Run(cfg, s, actions)) <==> NothingLost(cfg, s, actions)
    decreases |actions|
  {
    if actions != [] {
      var t := Step(cfg, s, actions[0]);
      if LosesNews(s, actions[0]) {
        var id := LossIsSilent(cfg, s, actions[0]);
        SilentForever(cfg, t, actions[1..], id);
      } else {
        StepSafe(cfg, s, actions[0]);
        StepAnnounces(cfg, s, actions[0]);
        AnnouncedFrom(cfg, t, actions[1..]);
      }
    }
  }

  ghost predicate AllIdle(s: State) {
    forall w :: 0 <= w < |s.workers| ==> s.workers[w].phase.Idle?
  }

  /** Exactly one result says that item `id` was created. */
  ghost predicate ReportedOnce(s: State, id: ItemId) {
    && Reported(s, id)
    && forall i, j :: 0 <= i < |s.results| && 0 <= j < |s.results| && Tells(s.results[i].link, id) && Tells(s.results[j].link, id)
         ==> i == j
  }

  /**
   * Once all workers have come to rest, every item has been reported as created exactly
   * once, exactly on the runs in which no worker lost the news: no committed insert without
   * its reply, and no rejected await between an insert and its result.
   */
  lemma CreatedIsReported(cfg: Config, k: nat, actions: seq<Action>)
    requires AllIdle(Run(cfg, Init(k), actions))
    ensures (forall id: ItemId :: id < |Run(cfg, Init(k), actions).items| ==> ReportedOnce(Run(cfg, Init(k), actions), id))
      <==> NothingLost(cfg, Init(k), actions)
  {
    var s := Run(cfg, Init(k), actions);
    InitIsSafe(k);
    RunIsSafe(cfg, Init(k), actions);
    AnnouncedFrom(cfg, Init(k), actions);
    forall id: ItemId | id < |s.items| ensures Announced(s, id) <==> ReportedOnce(s, id) {
      assert !Carrying(s, id);
      OnceIfSafe(s, id);
    }
  }

  lemma OnceIfSafe(s: State, id: ItemId)
    requires Safe(s)
    ensures Reported(s, id) <==> ReportedOnce(s, id)
  {
    assert forall i, j :: 0 <= i < j < |s.results| ==> !(Tells(s.results[i].link, id) && Tells(s.results[j].link, id));
  }
}
