/** Where the rows come from: every analysis, time and audit row on record is what some caller asked for. */
module LifecycleRequests {
  import opened Options
  import opened RcaRules
  import opened Lifecycle

  predicate AskedRca(past: seq<Action>, w: CallerId, id: ItemId, c: Candidate, now: int) {
    AskRca(w, id, c, now) in past
  }

  predicate AskedTransition(past: seq<Action>, w: CallerId, id: ItemId, to: Status, now: int) {
    AskTransition(w, id, to, now) in past
  }

  /** What a caller is about to do is what it has asked for. */
  ghost predicate PhaseAsked(past: seq<Action>, w: CallerId, p: Phase) {
    match p
    case Idle => true
    case ReadForTransition(id, to, now) => AskedTransition(past, w, id, to, now)
    case TryTransition(id, _, to, now, _) => AskedTransition(past, w, id, to, now)
    case ReadForRca(id, c, now) => AskedRca(past, w, id, c, now)
    case TryRca(id, rca, _) => AskedRca(past, w, id, rca.candidate, rca.submittedAt)
    case TryEscalation(id, _) => AskEscalation(w, id) in past
  }

  /** An audit row between equal states is an escalation, one into CLOSED an analysis, any other a transition. */
  ghost predicate AuditAsked(past: seq<Action>, id: ItemId, a: Audit) {
    if a.fromState == a.toState then exists w :: AskEscalation(w, id) in past
    else if a.toState == CLOSED then exists w, c, now :: AskedRca(past, w, id, c, now)
    else exists w, now :: AskedTransition(past, w, id, a.toState, now)
  }

  ghost predicate ItemAsked(past: seq<Action>, id: ItemId, it: Item) {
    && CreateItem(it.firstSignalAt) in past
    && (forall r :: r in it.rcas ==> exists w :: AskedRca(past, w, id, r.candidate, r.submittedAt))
    && (it.resolvedAt.Some? ==> exists w :: AskedTransition(past, w, id, RESOLVED, it.resolvedAt.value))
    && (forall a :: a in it.audit ==> AuditAsked(past, id, a))
  }

  /** A caller who was told of winning an edge had asked for it. */
  ghost predicate WinAsked(past: seq<Action>, t: Told) {
    t.outcome.Won? ==>
      if t.outcome.to == CLOSED then exists c, now :: AskedRca(past, t.caller, t.item, c, now)
      else exists now :: AskedTransition(past, t.caller, t.item, t.outcome.to, now)
  }

  ghost predicate AllAsked(past: seq<Action>, s: State) {
    && (forall w :: 0 <= w < |s.callers| ==> PhaseAsked(past, w, s.callers[w]))
    && (forall id :: 0 <= id < |s.items| ==> ItemAsked(past, id, s.items[id]))
    && (forall t :: t in s.log ==> WinAsked(past, t))
  }

  // ---------------------------------------------------------------- more may be asked

  lemma PhaseStillAsked(past: seq<Action>, a: Action, w: CallerId, p: Phase)
    requires PhaseAsked(past, w, p)
    ensures PhaseAsked(past + [a], w, p)
  {
  }

  lemma AuditStillAsked(past: seq<Action>, a: Action, id: ItemId, row: Audit)
    requires AuditAsked(past, id, row)
    ensures AuditAsked(past + [a], id, row)
  {
    if row.fromState == row.toState {
      var w :| AskEscalation(w, id) in past;
      assert AskEscalation(w, id) in past + [a];
    } else if row.toState == CLOSED {
      var w, c, now :| AskedRca(past, w, id, c, now);
      assert AskedRca(past + [a], w, id, c, now);
    } else {
      var w, now :| AskedTransition(past, w, id, row.toState, now);
      assert AskedTransition(past + [a], w, id, row.toState, now);
    }
  }

  lemma ItemStillAsked(past: seq<Action>, a: Action, id: ItemId, it: Item)
    requires ItemAsked(past, id, it)
    ensures ItemAsked(past + [a], id, it)
  {
    forall r | r in it.rcas ensures exists w :: AskedRca(past + [a], w, id, r.candidate, r.submittedAt) {
      var w :| AskedRca(past, w, id, r.candidate, r.submittedAt);
      assert AskedRca(past + [a], w, id, r.candidate, r.submittedAt);
    }
    if it.resolvedAt.Some? {
      var w :| AskedTransition(past, w, id, RESOLVED, it.resolvedAt.value);
      assert AskedTransition(past + [a], w, id, RESOLVED, it.resolvedAt.value);
    }
    forall row | row in it.audit ensures AuditAsked(past + [a], id, row) { AuditStillAsked(past, a, id, row); }
  }

  lemma WinStillAsked(past: seq<Action>, a: Action, t: Told)
    requires WinAsked(past, t)
    ensures WinAsked(past + [a], t)
  {
    if t.outcome.Won? {
      if t.outcome.to == CLOSED {
        var c, now :| AskedRca(past, t.caller, t.item, c, now);
        assert AskedRca(past + [a], t.caller, t.item, c, now);
      } else {
        var now :| AskedTransition(past, t.caller, t.item, t.outcome.to, now);
        assert AskedTransition(past + [a], t.caller, t.item, t.outcome.to, now);
      }
    }
  }

  lemma StillAsked(past: seq<Action>, a: Action, s: State)
    requires AllAsked(past, s)
    ensures AllAsked(past + [a], s)
  {
    forall w | 0 <= w < |s.callers| ensures PhaseAsked(past + [a], w, s.callers[w]) { PhaseStillAsked(past, a, w, s.callers[w]); }
    forall id | 0 <= id < |s.items| ensures ItemAsked(past + [a], id, s.items[id]) { ItemStillAsked(past, a, id, s.items[id]); }
    forall t | t in s.log ensures WinAsked(past + [a], t) { WinStillAsked(past, a, t); }
  }

  // ---------------------------------------------------------------- one step

  lemma TxAsked(past: seq<Action>, items: seq<Item>, w: CallerId, p: Phase)
    requires Trying(p) && PhaseOk(items, p) && PhaseAsked(past, w, p) && p.item < |items|
    requires ItemAsked(past, p.item, items[p.item]) && Tx(p, items[p.item]).Some?
    ensures ItemAsked(past, p.item, Tx(p, items[p.item]).value)
  {
    var it := items[p.item];
    var it' := Tx(p, it).value;
    assert |it'.audit| == |it.audit| + 1 && it'.audit == it.audit + [it'.audit[|it.audit|]];
    match p
    case TryTransition(id, from, to, now, _) => assert AskedTransition(past, w, id, to, now);
    case TryRca(id, rca, _) =>
      assert AskedRca(past, w, id, rca.candidate, rca.submittedAt);
      assert it'.rcas == it.rcas + [rca];
    case TryEscalation(id, _) =>
  }

  lemma CommitAsked(past: seq<Action>, s: State, w: CallerId)
    requires Inv(s) && AllAsked(past, s) && w < |s.callers| && Trying(s.callers[w])
    ensures AllAsked(past, Commit(s, w))
  {
    var p := s.callers[w];
    assert PhaseOk(s.items, p) && PhaseAsked(past, w, p);
    if p.item < |s.items| && Tx(p, s.items[p.item]).Some? { TxAsked(past, s.items, w, p); }
  }

  lemma GotoAsked(past: seq<Action>, s: State, w: CallerId, p: Phase)
    requires AllAsked(past, s) && w < |s.callers| && PhaseAsked(past, w, p)
    ensures AllAsked(past, Goto(s, w, p))
  {
  }

  lemma AnswerAsked(past: seq<Action>, s: State, w: CallerId)
    requires Inv(s) && AllAsked(past, s) && w < |s.callers| && Trying(s.callers[w])
    ensures AllAsked(past, Answer(s, w))
  {
    var p := s.callers[w];
    var committed := p.item < |s.items| && Tx(p, s.items[p.item]).Some?;
    CommitAsked(past, s, w);
    assert PhaseOk(s.items, p) && PhaseAsked(past, w, p);
    if Verdict(p, committed).Some? {
      var t := Told(w, p.item, Verdict(p, committed).value);
      assert WinAsked(past, t) by {
        if p.TryTransition? { assert AskedTransition(past, w, p.item, p.to, p.now); }
        if p.TryRca? { assert AskedRca(past, w, p.item, p.rca.candidate, p.rca.submittedAt); }
      }
    }
  }

  lemma DecideAsked(past: seq<Action>, s: State, w: CallerId)
    requires AllAsked(past, s) && w < |s.callers| && !Trying(s.callers[w])
    ensures AllAsked(past, Proceed(s, w))
  {
    var t := Proceed(s, w);
    assert PhaseAsked(past, w, s.callers[w]);
    assert PhaseAsked(past, w, t.callers[w]);
    assert t.items == s.items && |t.callers| == |s.callers|;
    assert forall v :: 0 <= v < |s.callers| && v != w ==> t.callers[v] == s.callers[v];
    assert forall u :: u in t.log && u.outcome.Won? ==> u in s.log;
  }

  lemma AskAsked(past: seq<Action>, s: State, a: Action)
    requires AllAsked(past, s) && a in past && (a.CreateItem? || a.AskTransition? || a.AskRca? || a.AskEscalation?)
    ensures AllAsked(past, Step(s, a))
  {
    match a
    case CreateItem(_) =>
    case AskTransition(w, id, to, now) => if w < |s.callers| && s.callers[w].Idle? { GotoAsked(past, s, w, ReadForTransition(id, to, now)); }
    case AskRca(w, id, c, now) => if w < |s.callers| && s.callers[w].Idle? { GotoAsked(past, s, w, ReadForRca(id, c, now)); }
    case AskEscalation(w, id) => if w < |s.callers| && s.callers[w].Idle? { GotoAsked(past, s, w, TryEscalation(id, 1)); }
  }

  lemma FaultAsked(past: seq<Action>, s: State, a: Action)
    requires Inv(s) && AllAsked(past, s) && (a.LoseAck? || a.Abort? || a.Throw?)
    ensures AllAsked(past, Step(s, a))
  {
    if a.w < |s.callers| {
      assert PhaseAsked(past, a.w, s.callers[a.w]);
      if a.Throw? {
        GotoAsked(past, s, a.w, Idle);
      } else if Trying(s.callers[a.w]) {
        RetriedAsked(past, a.w, s.callers[a.w]);
        if a.LoseAck? {
          CommitAsked(past, s, a.w);
          GotoAsked(past, Commit(s, a.w), a.w, Retried(s.callers[a.w]));
        } else {
          GotoAsked(past, s, a.w, Retried(s.callers[a.w]));
        }
      }
    }
  }

  lemma RetriedAsked(past: seq<Action>, w: CallerId, p: Phase)
    requires Trying(p) && PhaseAsked(past, w, p)
    ensures PhaseAsked(past, w, Retried(p))
  {
  }

  lemma StepAsked(past: seq<Action>, s: State, a: Action)
    requires Inv(s) && AllAsked(past, s)
    ensures AllAsked(past + [a], Step(s, a))
  {
    var more := past + [a];
    assert a in more;
    StillAsked(past, a, s);
    match a
    case Advance(w) =>
      if w < |s.callers| { if Trying(s.callers[w]) { AnswerAsked(more, s, w); } else { DecideAsked(more, s, w); } }
    case LoseAck(_) => FaultAsked(more, s, a);
    case Abort(_) => FaultAsked(more, s, a);
    case Throw(_) => FaultAsked(more, s, a);
    case _ => AskAsked(more, s, a);
  }

  lemma {:induction false} RunAsked(past: seq<Action>, s: State, actions: seq<Action>)
    requires Inv(s) && AllAsked(past, s)
    ensures AllAsked(past + actions, Run(s, actions))
    decreases |actions|
  {
    if actions == [] {
      assert past + actions == past;
    } else {
      StepKeepsInv(s, actions[0]);
      StepAsked(past, s, actions[0]);
      RunAsked(past + [actions[0]], Step(s, actions[0]), actions[1..]);
      assert past + [actions[0]] + actions[1..] == past + actions;
    }
  }

  /**
   * On every run from the empty system: every item starts when its creation says, every stored analysis is one that was submitted for
   * its item, word for word and with the time of that submission, the resolving time is that
   * of a transition into RESOLVED asked for, every audit row has a request of its kind, and
   * whoever is told of a win had asked for it.
   */
  lemma RecordsAreRequests(k: nat, actions: seq<Action>)
    ensures var s := Run(Init(k), actions);
      && (forall id :: 0 <= id < |s.items| ==> CreateItem(s.items[id].firstSignalAt) in actions)
      && (forall id, r :: 0 <= id < |s.items| && r in s.items[id].rcas ==>
            exists w :: AskRca(w, id, r.candidate, r.submittedAt) in actions)
      && (forall id :: 0 <= id < |s.items| && s.items[id].resolvedAt.Some? ==>
            exists w :: AskTransition(w, id, RESOLVED, s.items[id].resolvedAt.value) in actions)
      && (forall id, a :: 0 <= id < |s.items| && a in s.items[id].audit ==> AuditAsked(actions, id, a))
      && (forall t :: t in s.log ==> WinAsked(actions, t))
  {
    var s := Run(Init(k), actions);
    RunAsked([], Init(k), actions);
    assert [] + actions == actions;
    forall id | 0 <= id < |s.items| ensures CreateItem(s.items[id].firstSignalAt) in actions {
      assert ItemAsked(actions, id, s.items[id]);
    }
    forall id, r | 0 <= id < |s.items| && r in s.items[id].rcas
      ensures exists w :: AskRca(w, id, r.candidate, r.submittedAt) in actions
    {
      assert ItemAsked(actions, id, s.items[id]);
      var w :| AskedRca(actions, w, id, r.candidate, r.submittedAt);
      assert AskRca(w, id, r.candidate, r.submittedAt) in actions;
    }
    forall id | 0 <= id < |s.items| && s.items[id].resolvedAt.Some?
      ensures exists w :: AskTransition(w, id, RESOLVED, s.items[id].resolvedAt.value) in actions
    {
      assert ItemAsked(actions, id, s.items[id]);
      var w :| AskedTransition(actions, w, id, RESOLVED, s.items[id].resolvedAt.value);
      assert AskTransition(w, id, RESOLVED, s.items[id].resolvedAt.value) in actions;
    }
    forall id, a | 0 <= id < |s.items| && a in s.items[id].audit ensures AuditAsked(actions, id, a) {
      assert ItemAsked(actions, id, s.items[id]);
    }
  }

  // ---------------------------------------------------------------- the winning call decides the times

  /** What a change of state into `to` by a pending transaction writes into the other columns. */
  ghost predicate Stamps(p: Phase, it: Item, it': Item) {
    && it'.firstSignalAt == it.firstSignalAt
    && (it'.state == CLOSED && it.state != CLOSED ==>
          p.TryRca? && it'.rcas == [p.rca] && it'.closedAt == Some(p.rca.submittedAt) && it'.resolvedAt == it.resolvedAt)
    && (it'.state == RESOLVED && it.state != RESOLVED ==>
          p.TryTransition? && it'.resolvedAt == Some(p.now) && it'.rcas == it.rcas && it'.closedAt == it.closedAt)
    && (it'.state == INVESTIGATING || it'.state == it.state ==>
          it'.rcas == it.rcas && it'.resolvedAt == it.resolvedAt && it'.closedAt == it.closedAt)
  }

  /** The audit row that a pending transaction owes. */
  function Owed(p: Phase): Audit
    requires Trying(p)
  {
    if p.TryTransition? then Audit(p.from, p.to) else if p.TryRca? then Audit(RESOLVED, CLOSED) else Audit(OPEN, OPEN)
  }

  /** Every transaction that commits leaves exactly its own audit row on its own item, and every other row as it was. */
  lemma CommitRecords(s: State, w: CallerId)
    requires Inv(s) && w < |s.callers| && Trying(s.callers[w])
    ensures var p, t := s.callers[w], Commit(s, w);
      && |t.items| == |s.items|
      && (forall id :: 0 <= id < |s.items| && id != p.item ==> t.items[id] == s.items[id])
      && (p.item < |s.items| ==>
            if Tx(p, s.items[p.item]).Some? then t.items[p.item].audit == s.items[p.item].audit + [Owed(p)]
            else t.items[p.item] == s.items[p.item])
      && (p.item < |s.items| ==>
            (Tx(p, s.items[p.item]).Some? <==>
               p.TryEscalation? || (p.TryTransition? && s.items[p.item].state == p.from) || (p.TryRca? && s.items[p.item].state == RESOLVED)))
  {
    var p := s.callers[w];
    if p.item < |s.items| { assert ItemOk(s.items[p.item]); }
  }

  lemma TxStamps(items: seq<Item>, p: Phase)
    requires Trying(p) && PhaseOk(items, p) && p.item < |items| && ItemOk(items[p.item]) && Tx(p, items[p.item]).Some?
    ensures Stamps(p, items[p.item], Tx(p, items[p.item]).value)
  {
  }

  /**
   * Which call a row's times and analysis come from: the one whose transaction moved the
   * row. A step that does not move it leaves them as they were.
   */
  lemma WinnerStamps(s: State, a: Action, id: ItemId)
    requires Inv(s) && id < |s.items|
    ensures var it, it' := s.items[id], Step(s, a).items[id];
      && (it'.state != it.state ==>
            && (a.Advance? || a.LoseAck?) && a.w < |s.callers| && Trying(s.callers[a.w]) && s.callers[a.w].item == id
            && Stamps(s.callers[a.w], it, it'))
      && (it'.state == it.state ==> it'.rcas == it.rcas && it'.resolvedAt == it.resolvedAt && it'.closedAt == it.closedAt)
  {
    if (a.Advance? || a.LoseAck?) && a.w < |s.callers| {
      if Trying(s.callers[a.w]) { CommitStamps(s, a.w, id); } else { DecideItems(s, a.w); }
    } else {
      assert s.items <= Step(s, a).items;
    }
  }

  lemma CommitStamps(s: State, w: CallerId, id: ItemId)
    requires Inv(s) && w < |s.callers| && Trying(s.callers[w]) && id < |s.items|
    ensures Answer(s, w).items == Commit(s, w).items && id < |Commit(s, w).items|
    ensures Commit(s, w).items[id] != s.items[id] ==>
      s.callers[w].item == id && Stamps(s.callers[w], s.items[id], Commit(s, w).items[id])
  {
    var p := s.callers[w];
    AnswerItems(s, w);
    assert PhaseOk(s.items, p);
    if p.item < |s.items| && Tx(p, s.items[p.item]).Some? { TxStamps(s.items, p); }
  }
}
