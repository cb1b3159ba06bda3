/**
 * The repository and the workflow service in the source's own imperative form: rows
 * changed in place inside transactions. One undisturbed call is tied to the concurrent
 * lifecycle protocol it is an interleaving of.
 */
module WorkflowServices {
  import opened Options
  import opened RcaRules
  import opened Lifecycle

  // ---------------------------------------------------------------- one call alone, as a function

  /** What an undisturbed `transitionWorkItem` does. */
  function TransitionAlone(items: seq<Item>, id: ItemId, to: Status, now: int): (seq<Item>, Outcome) {
    if id >= |items| then (items, NotFound)
    else
      var it := items[id];
      if !MayTransition(it.state, to, None, it.firstSignalAt, now) then (items, InvalidTransition)
      else
        var tx := TransitionTx(it, it.state, to, now);
        if tx.None? then (items, Conflict) else (items[id := tx.value], Won(it.state, to))
  }

  /** What an undisturbed `submitIncidentRca` does. */
  function RcaAlone(items: seq<Item>, id: ItemId, c: Candidate, now: int): (seq<Item>, Outcome) {
    if id >= |items| then (items, NotFound)
    else
      var it := items[id];
      var errors := ErrorsOf(c, it.firstSignalAt, now);
      if !MayTransition(it.state, CLOSED, Some(c), it.firstSignalAt, now)
      then (items, if errors != [] then InvalidRca(errors) else InvalidState)
      else
        match CalculateMttr(it.firstSignalAt, now)
        case ClockSkew => (items, MttrFailed)
        case Seconds(m) =>
          var tx := RcaTx(it, Rca(c, m, now));
          if tx.None? then (items, InvalidState) else (items[id := tx.value], Won(RESOLVED, CLOSED))
  }

  function Answered(s: State, w: CallerId, id: ItemId, r: (seq<Item>, Outcome)): State {
    State(r.0, s.callers, s.log + [Told(w, id, r.1)])
  }

  lemma ThreeSteps(s: State, a: Action, b: Action, c: Action)
    ensures Run(s, [a, b, c]) == Step(Step(Step(s, a), b), c)
  {
    assert [a, b, c][1..] == [b, c] && [b, c][1..] == [c] && [c][1..] == [];
    assert Run(s, [a, b, c]) == Run(Step(s, a), [b, c]) == Run(Step(Step(s, a), b), [c]);
    assert Run(Step(Step(s, a), b), [c]) == Run(Step(Step(Step(s, a), b), c), []);
  }

  /** The undisturbed transition is one of the runs of the protocol. */
  lemma TransitionAloneIsRun(s: State, w: CallerId, id: ItemId, to: Status, now: int)
    requires w < |s.callers| && s.callers[w].Idle?
    ensures Run(s, [AskTransition(w, id, to, now), Advance(w), Advance(w)])
         == Answered(s, w, id, TransitionAlone(s.items, id, to, now))
  {
    var s1 := Goto(s, w, ReadForTransition(id, to, now));
    var s2 := DecideTransition(s1, w, id, to, now);
    ThreeSteps(s, AskTransition(w, id, to, now), Advance(w), Advance(w));
    assert Step(s, AskTransition(w, id, to, now)) == s1 && Step(s1, Advance(w)) == s2;
    assert s.callers[w := Idle] == s.callers;
    if id < |s.items| && MayTransition(s.items[id].state, to, None, s.items[id].firstSignalAt, now) {
      assert Step(s2, Advance(w)) == Answer(s2, w);
    }
  }

  /** So is the undisturbed submission of an analysis. */
  lemma RcaAloneIsRun(s: State, w: CallerId, id: ItemId, c: Candidate, now: int)
    requires w < |s.callers| && s.callers[w].Idle?
    ensures Run(s, [AskRca(w, id, c, now), Advance(w), Advance(w)])
         == Answered(s, w, id, RcaAlone(s.items, id, c, now))
  {
    var s1 := Goto(s, w, ReadForRca(id, c, now));
    var s2 := DecideRca(s1, w, id, c, now);
    ThreeSteps(s, AskRca(w, id, c, now), Advance(w), Advance(w));
    assert Step(s, AskRca(w, id, c, now)) == s1 && Step(s1, Advance(w)) == s2;
    assert s.callers[w := Idle] == s.callers;
    if id < |s.items| && MayTransition(s.items[id].state, CLOSED, Some(c), s.items[id].firstSignalAt, now) {
      GuardExcludesSkew(Some(c), s.items[id].firstSignalAt, now);
      assert Step(s2, Advance(w)) == Answer(s2, w);
    }
  }

  /** All rows but `id` are as they were. */
  predicate OnlyRow(items: seq<Item>, items': seq<Item>, id: ItemId) {
    |items'| == |items| && forall i :: 0 <= i < |items| && i != id ==> items'[i] == items[i]
  }

  /** A row closed at `now` with the analysis `c` as submitted and nothing else changed. */
  ghost predicate ClosedWith(it: Item, it': Item, c: Candidate, now: int) {
    && it'.state == CLOSED && it'.closedAt == Some(now)
    && |it'.rcas| == 1 && it'.rcas[0].candidate == c && it'.rcas[0].submittedAt == now
    && IsRounded(it'.rcas[0].mttrSeconds, now - it.firstSignalAt)
    && it'.firstSignalAt == it.firstSignalAt && it'.resolvedAt == it.resolvedAt
    && it'.audit == it.audit + [Audit(RESOLVED, CLOSED)]
  }

  /** A row moved to `to` at `now`, which is the resolving time if it is resolved, and nothing else changed. */
  predicate MovedTo(it: Item, it': Item, to: Status, now: int) {
    && it'.state == to && it'.resolvedAt == (if to == RESOLVED then Some(now) else it.resolvedAt)
    && it'.firstSignalAt == it.firstSignalAt && it'.closedAt == it.closedAt && it'.rcas == it.rcas
    && it'.audit == it.audit + [Audit(it.state, to)]
  }

  /** Who is told what, and what an undisturbed submission leaves in the table. */
  lemma RcaAloneExactly(items: seq<Item>, id: ItemId, c: Candidate, now: int)
    ensures var (items', o) := RcaAlone(items, id, c, now);
      && (o == NotFound <==> id >= |items|)
      && (o.InvalidRca? <==> id < |items| && !Acceptable(c, items[id].firstSignalAt, now))
      && (o.InvalidRca? ==> o.errors == ErrorsOf(c, items[id].firstSignalAt, now) != [])
      && (o.Won? <==>
            id < |items| && items[id].state == RESOLVED && items[id].rcas == [] && Acceptable(c, items[id].firstSignalAt, now))
      && (o == NotFound || o.InvalidRca? || o == Won(RESOLVED, CLOSED) || o == InvalidState)
      && (o.Won? ==> OnlyRow(items, items', id) && ClosedWith(items[id], items'[id], c, now))
      && (!o.Won? ==> items' == items)
  {
    if id < |items| {
      ValidExactly(c, items[id].firstSignalAt, now);
      MttrIsRounded(items[id].firstSignalAt, now);
      GuardExcludesSkew(Some(c), items[id].firstSignalAt, now);
    }
  }

  /** The plain transition knows just two moves, and tells of a conflict only when somebody interferes. */
  lemma TransitionAloneExactly(items: seq<Item>, id: ItemId, to: Status, now: int)
    ensures var (items', o) := TransitionAlone(items, id, to, now);
      && (o == NotFound <==> id >= |items|)
      && (o.Won? <==> id < |items| && ((items[id].state == OPEN && to == INVESTIGATING) || (items[id].state == INVESTIGATING && to == RESOLVED)))
      && (o == NotFound || o == InvalidTransition || o == Won(items[id].state, to))
      && (o.Won? ==> OnlyRow(items, items', id) && MovedTo(items[id], items'[id], to, now))
      && (!o.Won? ==> items' == items)
  {
  }

  // ---------------------------------------------------------------- the repository

  class PostgresWorkItemRepository {
    var items: seq<Item>

    /** The guarded update and its audit row; no row matches unless it exists in `from`. */
    method ApplyGuardedTransition(id: ItemId, from: Status, to: Status, resolvedAt: Option<int>, closedAt: Option<int>)
      returns (matched: bool)
      modifies this
      ensures matched <==> id < |old(items)| && old(items)[id].state == from
      ensures items == if matched then old(items)[id := GuardedTransition(old(items)[id], from, to, resolvedAt, closedAt).value] else old(items)
    {
      if id >= |items| || items[id].state != from { return false; }
      var row := items[id].(state := to);
      if resolvedAt.Some? { row := row.(resolvedAt := resolvedAt); }
      if closedAt.Some? { row := row.(closedAt := closedAt); }
      items := items[id := row];
      items := items[id := items[id].(audit := items[id].audit + [Audit(from, to)])];
      return true;
    }

    method TransitionState(id: ItemId, from: Status, to: Status, now: int) returns (ok: bool)
      modifies this
      ensures ok <==> id < |old(items)| && TransitionTx(old(items)[id], from, to, now).Some?
      ensures items == if ok then old(items)[id := TransitionTx(old(items)[id], from, to, now).value] else old(items)
    {
      ok := ApplyGuardedTransition(id, from, to, if to == RESOLVED then Some(now) else None, None);
    }

    /** The close and the analysis commit together; a second analysis rolls the close back. */
    method SubmitRca(id: ItemId, rca: Rca) returns (ok: bool)
      modifies this
      ensures ok <==> id < |old(items)| && RcaTx(old(items)[id], rca).Some?
      ensures ok <==> id < |old(items)| && old(items)[id].state == RESOLVED && old(items)[id].rcas == []
      ensures ok ==> |items| == |old(items)| && items[id].state == CLOSED && items[id].closedAt == Some(rca.submittedAt) && items[id].rcas == [rca]
      ensures items == if ok then old(items)[id := RcaTx(old(items)[id], rca).value] else old(items)
    {
      var before := items;
      ok := ApplyGuardedTransition(id, RESOLVED, CLOSED, None, Some(rca.submittedAt));
      if !ok { return; }
      if items[id].rcas != [] {
        items := before;
        return false;
      }
      items := items[id := items[id].(rcas := items[id].rcas + [rca])];
    }

    /** An escalation is an audit row from OPEN to OPEN; an unknown id violates the foreign key. */
    method RecordEscalation(id: ItemId) returns (ok: bool)
      modifies this
      ensures ok <==> id < |old(items)|
      ensures ok ==> items == old(items)[id := old(items)[id].(audit := old(items)[id].audit + [Audit(OPEN, OPEN)])]
      ensures items == if ok then old(items)[id := Tx(TryEscalation(id, 1), old(items)[id]).value] else old(items)
    {
      if id >= |items| { return false; }
      items := items[id := items[id].(audit := items[id].audit + [Audit(OPEN, OPEN)])];
      return true;
    }
  }

  // ---------------------------------------------------------------- the service

  class WorkflowService {
    const store: PostgresWorkItemRepository

    constructor (store: PostgresWorkItemRepository)
      ensures this.store == store
    {
      this.store := store;
    }

    method TransitionWorkItem(id: ItemId, to: Status, now: int) returns (outcome: Outcome)
      modifies store
      ensures (store.items, outcome) == TransitionAlone(old(store.items), id, to, now)
      ensures outcome.Won? ==> OnlyRow(old(store.items), store.items, id) && id < |store.items| && MovedTo(old(store.items)[id], store.items[id], to, now)
      ensures !outcome.Won? ==> store.items == old(store.items)
    {
      TransitionAloneExactly(store.items, id, to, now);
      if id >= |store.items| { return NotFound; }
      var snapshot := store.items[id];
      if !MayTransition(snapshot.state, to, None, snapshot.firstSignalAt, now) { return InvalidTransition; }
      var ok := store.TransitionState(id, snapshot.state, to, now);
      return if ok then Won(snapshot.state, to) else Conflict;
    }

    method SubmitIncidentRca(id: ItemId, c: Candidate, now: int) returns (outcome: Outcome)
      modifies store
      ensures (store.items, outcome) == RcaAlone(old(store.items), id, c, now)
      ensures outcome.Won? ==> OnlyRow(old(store.items), store.items, id) && id < |store.items| && ClosedWith(old(store.items)[id], store.items[id], c, now)
      ensures !outcome.Won? ==> store.items == old(store.items)
    {
      RcaAloneExactly(store.items, id, c, now);
      if id >= |store.items| { return NotFound; }
      var snapshot := store.items[id];
      var errors := ValidateRca(c, snapshot.firstSignalAt, now);
      if !MayTransition(snapshot.state, CLOSED, Some(c), snapshot.firstSignalAt, now) {
        return if errors != [] then InvalidRca(errors) else InvalidState;
      }
      var mttr := CalculateMttr(snapshot.firstSignalAt, now);
      if mttr.ClockSkew? { return MttrFailed; }
      var ok := store.SubmitRca(id, Rca(c, mttr.value, now));
      return if ok then Won(RESOLVED, CLOSED) else InvalidState;
    }
  }
}
