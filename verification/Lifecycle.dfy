/**
 * The work-item lifecycle under concurrent callers. A caller reads a snapshot,
 * checks it against the state graph, then runs a guarded transaction; the
 * transaction is retried after transient errors, also when it had committed and
 * only its acknowledgement was lost.
 */
module Lifecycle {
  import opened Options
  import opened RcaRules

  type ItemId = nat
  type CallerId = nat

  datatype Rca = Rca(candidate: Candidate, mttrSeconds: nat, submittedAt: int)

  /** One audit row. Escalations are rows whose two states are equal. */
  datatype Audit = Audit(fromState: Status, toState: Status)

  datatype Item = Item(
    firstSignalAt: int, state: Status, resolvedAt: Option<int>, closedAt: Option<int>,
    rcas: seq<Rca>, audit: seq<Audit>)

  datatype Phase =
    | Idle
    | ReadForTransition(item: ItemId, to: Status, now: int)
    | TryTransition(item: ItemId, from: Status, to: Status, now: int, attempt: nat)
    | ReadForRca(item: ItemId, candidate: Candidate, now: int)
    | TryRca(item: ItemId, rca: Rca, attempt: nat)
    | TryEscalation(item: ItemId, attempt: nat)

  datatype Outcome =
    | NotFound
    | InvalidTransition
    | InvalidRca(errors: seq<FieldError>)
    | InvalidState
    | MttrFailed
    | Conflict
    | Won(from: Status, to: Status)

  /** What a caller was told about an item. */
  datatype Told = Told(caller: CallerId, item: ItemId, outcome: Outcome)

  datatype State = State(items: seq<Item>, callers: seq<Phase>, log: seq<Told>)

  datatype Action =
    | CreateItem(firstSignalAt: int)
    | AskTransition(w: CallerId, item: ItemId, to: Status, now: int)
    | AskRca(w: CallerId, item: ItemId, candidate: Candidate, now: int)
    | AskEscalation(w: CallerId, item: ItemId)
    | Advance(w: CallerId)
    | LoseAck(w: CallerId)     // the transaction runs to its end, the reply is a transient error
    | Abort(w: CallerId)       // the transaction rolls back, the reply is a transient error
    | Throw(w: CallerId)       // the pending await rejects with an error nobody retries

  const ATTEMPTS := 3

  function Init(k: nat): State { State([], seq(k, _ => Idle), []) }

  // ---------------------------------------------------------------- the transactions

  /** `applyGuardedTransition`: nothing unless the row is still in `from`. */
  function GuardedTransition(it: Item, from: Status, to: Status, resolvedAt: Option<int>, closedAt: Option<int>): Option<Item> {
    if it.state != from then None
    else Some(it.(state := to,
                  resolvedAt := if resolvedAt.Some? then resolvedAt else it.resolvedAt,
                  closedAt := if closedAt.Some? then closedAt else it.closedAt,
                  audit := it.audit + [Audit(from, to)]))
  }

  function TransitionTx(it: Item, from: Status, to: Status, now: int): Option<Item> {
    GuardedTransition(it, from, to, if to == RESOLVED then Some(now) else None, None)
  }

  /** Guarded close and RCA insert in one transaction; a second RCA violates the unique key and rolls both back. */
  function RcaTx(it: Item, rca: Rca): Option<Item> {
    var closed := GuardedTransition(it, RESOLVED, CLOSED, None, Some(rca.submittedAt));
    if closed.None? || it.rcas != [] then None else Some(closed.value.(rcas := it.rcas + [rca]))
  }

  /** The transaction a caller is attempting, on the row it addresses; None when it changes nothing. */
  function Tx(p: Phase, it: Item): Option<Item> {
    match p
    case TryTransition(_, from, to, now, _) => TransitionTx(it, from, to, now)
    case TryRca(_, rca, _) => RcaTx(it, rca)
    case TryEscalation(_, _) => Some(it.(audit := it.audit + [Audit(OPEN, OPEN)]))
    case _ => None
  }

  predicate Trying(p: Phase) { p.TryTransition? || p.TryRca? || p.TryEscalation? }

  function Retried(p: Phase): Phase
    requires Trying(p)
  {
    if p.attempt < ATTEMPTS then p.(attempt := p.attempt + 1) else Idle
  }

  /** What the caller of a completed transaction is told; an escalation tells nobody. */
  function Verdict(p: Phase, committed: bool): Option<Outcome> {
    match p
    case TryTransition(_, from, to, _, _) => Some(if committed then Won(from, to) else Conflict)
    case TryRca(_, _, _) => Some(if committed then Won(RESOLVED, CLOSED) else InvalidState)
    case _ => None
  }

  // ---------------------------------------------------------------- one step

  function Goto(s: State, w: CallerId, p: Phase): State
    requires w < |s.callers|
  {
    s.(callers := s.callers[w := p])
  }

  function Tell(s: State, w: CallerId, id: ItemId, o: Outcome): State
    requires w < |s.callers|
  {
    Goto(s.(log := s.log + [Told(w, id, o)]), w, Idle)
  }

  /** `transitionWorkItem` after its read: the graph decides on the snapshot. */
  function DecideTransition(s: State, w: CallerId, id: ItemId, to: Status, now: int): State
    requires w < |s.callers|
  {
    if id >= |s.items| then Tell(s, w, id, NotFound)
    else
      var it := s.items[id];
      if MayTransition(it.state, to, None, it.firstSignalAt, now)
      then Goto(s, w, TryTransition(id, it.state, to, now, 1))
      else Tell(s, w, id, InvalidTransition)
  }

  /** `submitIncidentRca` after its read: validator, graph with guard, time to resolve. */
  function DecideRca(s: State, w: CallerId, id: ItemId, c: Candidate, now: int): State
    requires w < |s.callers|
  {
    if id >= |s.items| then Tell(s, w, id, NotFound)
    else
      var it := s.items[id];
      var errors := ErrorsOf(c, it.firstSignalAt, now);
      if !MayTransition(it.state, CLOSED, Some(c), it.firstSignalAt, now) then
        Tell(s, w, id, if errors != [] then InvalidRca(errors) else InvalidState)
      else
        match CalculateMttr(it.firstSignalAt, now)
        case ClockSkew => Tell(s, w, id, MttrFailed)
        case Seconds(m) => Goto(s, w, TryRca(id, Rca(c, m, now), 1))
  }

  /** Run the pending transaction to its end. */
  function Commit(s: State, w: CallerId): State
    requires w < |s.callers| && Trying(s.callers[w])
  {
    var p := s.callers[w];
    if p.item >= |s.items| || Tx(p, s.items[p.item]).None? then s
    else s.(items := s.items[p.item := Tx(p, s.items[p.item]).value])
  }

  function Answer(s: State, w: CallerId): State
    requires w < |s.callers| && Trying(s.callers[w])
  {
    var p := s.callers[w];
    var committed := p.item < |s.items| && Tx(p, s.items[p.item]).Some?;
    var t := Commit(s, w);
    match Verdict(p, committed)
    case Some(o) => Tell(t, w, p.item, o)
    case None => Goto(t, w, Idle)
  }

  function Proceed(s: State, w: CallerId): State
    requires w < |s.callers|
  {
    match s.callers[w]
    case Idle => s
    case ReadForTransition(id, to, now) => DecideTransition(s, w, id, to, now)
    case ReadForRca(id, c, now) => DecideRca(s, w, id, c, now)
    case _ => Answer(s, w)
  }

  function Step(s: State, a: Action): State {
    match a
    case CreateItem(first) => s.(items := s.items + [Item(first, OPEN, None, None, [], [])])
    case AskTransition(w, id, to, now) =>
      if w < |s.callers| && s.callers[w].Idle? then Goto(s, w, ReadForTransition(id, to, now)) else s
    case AskRca(w, id, c, now) =>
      if w < |s.callers| && s.callers[w].Idle? then Goto(s, w, ReadForRca(id, c, now)) else s
    case AskEscalation(w, id) =>
      if w < |s.callers| && s.callers[w].Idle? then Goto(s, w, TryEscalation(id, 1)) else s
    case Advance(w) => if w < |s.callers| then Proceed(s, w) else s
    case LoseAck(w) =>
      if w < |s.callers| && Trying(s.callers[w]) then Goto(Commit(s, w), w, Retried(s.callers[w])) else s
    case Abort(w) =>
      if w < |s.callers| && Trying(s.callers[w]) then Goto(s, w, Retried(s.callers[w])) else s
    case Throw(w) => if w < |s.callers| then Goto(s, w, Idle) else s
  }

  function Run(s: State, actions: seq<Action>): State
    decreases |actions|
  {
    if actions == [] then s else Run(Step(s, actions[0]), actions[1..])
  }

  // ---------------------------------------------------------------- what every item keeps

  function Progress(s: Status): nat {
    match s
    case OPEN => 0
    case INVESTIGATING => 1
    case RESOLVED => 2
    case CLOSED => 3
  }

  /** The only path from OPEN to a state. */
  function PathTo(s: Status): seq<Audit> {
    match s
    case OPEN => []
    case INVESTIGATING => [Audit(OPEN, INVESTIGATING)]
    case RESOLVED => [Audit(OPEN, INVESTIGATING), Audit(INVESTIGATING, RESOLVED)]
    case CLOSED => [Audit(OPEN, INVESTIGATING), Audit(INVESTIGATING, RESOLVED), Audit(RESOLVED, CLOSED)]
  }

  /** The audit rows that record a change of state. */
  function Moves(audit: seq<Audit>): seq<Audit> {
    if audit == [] then []
    else (if audit[0].fromState != audit[0].toState then [audit[0]] else []) + Moves(audit[1..])
  }

  lemma {:induction false} MovesAppend(audit: seq<Audit>, a: Audit)
    ensures Moves(audit + [a]) == Moves(audit) + if a.fromState != a.toState then [a] else []
  {
    if audit != [] {
      assert (audit + [a])[1..] == audit[1..] + [a];
      MovesAppend(audit[1..], a);
    }
  }

  /** An analysis that was acceptable when submitted and whose time to resolve is the rounded gap. */
  ghost predicate SoundRca(firstSignalAt: int, r: Rca) {
    && Acceptable(r.candidate, firstSignalAt, r.submittedAt)
    && firstSignalAt <= r.submittedAt
    && IsRounded(r.mttrSeconds, r.submittedAt - firstSignalAt)
  }

  /**
   * The audit trail is the path to the current state; CLOSED goes with exactly one
   * sound analysis, submitted at the closing time, and no other state has one.
   */
  ghost predicate ItemOk(it: Item) {
    && Moves(it.audit) == PathTo(it.state)
    && (it.resolvedAt.Some? <==> Progress(it.state) >= Progress(RESOLVED))
    && (it.state == CLOSED ==>
          |it.rcas| == 1 && SoundRca(it.firstSignalAt, it.rcas[0]) && it.closedAt == Some(it.rcas[0].submittedAt))
    && (it.state != CLOSED ==> it.rcas == [] && it.closedAt == None)
  }

  /** A pending transaction is one the graph and the guard have allowed. */
  ghost predicate PhaseOk(items: seq<Item>, p: Phase) {
    match p
    case TryTransition(id, from, to, _, _) => id < |items| && Target(from) == Some(to) && to != CLOSED
    case TryRca(id, rca, _) => id < |items| && SoundRca(items[id].firstSignalAt, rca)
    case _ => true
  }

  ghost predicate WonOk(items: seq<Item>, t: Told) {
    t.outcome.Won? ==>
      && t.item < |items|
      && Target(t.outcome.from) == Some(t.outcome.to)
      && Progress(t.outcome.to) <= Progress(items[t.item].state)
  }

  ghost predicate SameWin(t: Told, u: Told) {
    t.outcome.Won? && u.outcome.Won? && t.item == u.item && t.outcome.to == u.outcome.to
  }

  ghost predicate Inv(s: State) {
    && (forall i :: 0 <= i < |s.items| ==> ItemOk(s.items[i]))
    && (forall w :: 0 <= w < |s.callers| ==> PhaseOk(s.items, s.callers[w]))
    && (forall t :: t in s.log ==> WonOk(s.items, t) && !t.outcome.MttrFailed?)
    && (forall i, j :: 0 <= i < j < |s.log| ==> !SameWin(s.log[i], s.log[j]))
  }

  lemma TransitionTxOk(it: Item, from: Status, to: Status, now: int)
    requires ItemOk(it) && Target(from) == Some(to) && to != CLOSED && TransitionTx(it, from, to, now).Some?
    ensures ItemOk(TransitionTx(it, from, to, now).value)
  {
    MovesAppend(it.audit, Audit(from, to));
  }

  lemma RcaTxOk(it: Item, rca: Rca)
    requires ItemOk(it) && SoundRca(it.firstSignalAt, rca) && RcaTx(it, rca).Some?
    ensures ItemOk(RcaTx(it, rca).value)
  {
    MovesAppend(it.audit, Audit(RESOLVED, CLOSED));
  }

  /** Any allowed transaction keeps the item sound, moves it forward and never touches when it started. */
  lemma TxOk(items: seq<Item>, p: Phase)
    requires Trying(p) && PhaseOk(items, p) && p.item < |items| && ItemOk(items[p.item])
    requires Tx(p, items[p.item]).Some?
    ensures var it, it' := items[p.item], Tx(p, items[p.item]).value;
      ItemOk(it') && it'.firstSignalAt == it.firstSignalAt && Progress(it.state) <= Progress(it'.state)
  {
    var it := items[p.item];
    match p
    case TryTransition(_, from, to, now, _) => TransitionTxOk(it, from, to, now);
    case TryRca(_, rca, _) => RcaTxOk(it, rca);
    case TryEscalation(_, _) => MovesAppend(it.audit, Audit(OPEN, OPEN));
  }

  lemma CommitKeepsInv(s: State, w: CallerId)
    requires Inv(s) && w < |s.callers| && Trying(s.callers[w])
    ensures Inv(Commit(s, w))
  {
    var p, t := s.callers[w], Commit(s, w);
    assert PhaseOk(s.items, p);
    if t != s {
      TxOk(s.items, p);
      forall v | 0 <= v < |t.callers| ensures PhaseOk(t.items, t.callers[v]) {
        assert PhaseOk(s.items, s.callers[v]);
      }
      forall u | u in t.log ensures WonOk(t.items, u) {
        assert WonOk(s.items, u);
      }
    }
  }

  lemma GotoKeepsInv(s: State, w: CallerId, p: Phase)
    requires Inv(s) && w < |s.callers| && PhaseOk(s.items, p)
    ensures Inv(Goto(s, w, p))
  {
  }

  /** Telling an outcome is sound unless it is a win for an edge someone has already won. */
  lemma TellKeepsInv(s: State, w: CallerId, id: ItemId, o: Outcome)
    requires Inv(s) && w < |s.callers| && !o.MttrFailed? && WonOk(s.items, Told(w, id, o))
    requires forall t :: t in s.log ==> !SameWin(t, Told(w, id, o))
    ensures Inv(Tell(s, w, id, o))
  {
  }

  /** A guarded commit is news: nobody was told of that edge before. */
  lemma CommitIsNews(s: State, w: CallerId, t: Told)
    requires Inv(s) && w < |s.callers| && Trying(s.callers[w]) && t in s.log
    requires s.callers[w].item < |s.items| && Tx(s.callers[w], s.items[s.callers[w].item]).Some?
    requires Verdict(s.callers[w], true).Some?
    ensures !SameWin(t, Told(w, s.callers[w].item, Verdict(s.callers[w], true).value))
  {
    assert PhaseOk(s.items, s.callers[w]) && WonOk(s.items, t);
  }

  lemma AnswerKeepsInv(s: State, w: CallerId)
    requires Inv(s) && w < |s.callers| && Trying(s.callers[w])
    ensures Inv(Answer(s, w))
  {
    var p := s.callers[w];
    var committed := p.item < |s.items| && Tx(p, s.items[p.item]).Some?;
    CommitKeepsInv(s, w);
    match Verdict(p, committed)
    case None => GotoKeepsInv(Commit(s, w), w, Idle);
    case Some(o) =>
      if committed {
        forall t | t in s.log ensures !SameWin(t, Told(w, p.item, o)) { CommitIsNews(s, w, t); }
      }
      TellKeepsInv(Commit(s, w), w, p.item, o);
  }

  lemma DecideKeepsInv(s: State, w: CallerId)
    requires Inv(s) && w < |s.callers| && !Trying(s.callers[w]) && !s.callers[w].Idle?
    ensures Inv(Proceed(s, w))
  {
    match s.callers[w]
    case ReadForTransition(id, to, now) =>
      if id < |s.items| && MayTransition(s.items[id].state, to, None, s.items[id].firstSignalAt, now) {
        GotoKeepsInv(s, w, TryTransition(id, s.items[id].state, to, now, 1));
      } else {
        TellKeepsInv(s, w, id, if id < |s.items| then InvalidTransition else NotFound);
      }
    case ReadForRca(id, c, now) => DecideRcaKeepsInv(s, w, id, c, now);
  }

  lemma DecideRcaKeepsInv(s: State, w: CallerId, id: ItemId, c: Candidate, now: int)
    requires Inv(s) && w < |s.callers|
    ensures Inv(DecideRca(s, w, id, c, now))
  {
    if id >= |s.items| {
      TellKeepsInv(s, w, id, NotFound);
    } else {
      var it := s.items[id];
      var errors := ErrorsOf(c, it.firstSignalAt, now);
      ValidExactly(c, it.firstSignalAt, now);
      if MayTransition(it.state, CLOSED, Some(c), it.firstSignalAt, now) {
        GuardExcludesSkew(Some(c), it.firstSignalAt, now);
        MttrIsRounded(it.firstSignalAt, now);
        GotoKeepsInv(s, w, TryRca(id, Rca(c, CalculateMttr(it.firstSignalAt, now).value, now), 1));
      } else {
        TellKeepsInv(s, w, id, if errors != [] then InvalidRca(errors) else InvalidState);
      }
    }
  }

  lemma CreateKeepsInv(s: State, first: int)
    requires Inv(s)
    ensures Inv(Step(s, CreateItem(first)))
  {
    var t := Step(s, CreateItem(first));
    forall w | 0 <= w < |s.callers| ensures PhaseOk(t.items, s.callers[w]) {
      assert PhaseOk(s.items, s.callers[w]);
    }
    forall u | u in s.log ensures WonOk(t.items, u) { assert WonOk(s.items, u); }
  }

  lemma FaultKeepsInv(s: State, a: Action)
    requires Inv(s) && (a.LoseAck? || a.Abort?)
    ensures Inv(Step(s, a))
  {
    if a.w < |s.callers| && Trying(s.callers[a.w]) {
      var t := if a.LoseAck? then Commit(s, a.w) else s;
      CommitKeepsInv(s, a.w);
      assert PhaseOk(t.items, t.callers[a.w]);
      GotoKeepsInv(t, a.w, Retried(s.callers[a.w]));
    }
  }

  lemma StepKeepsInv(s: State, a: Action)
    requires Inv(s)
    ensures Inv(Step(s, a))
  {
    match a
    case CreateItem(first) => CreateKeepsInv(s, first);
    case LoseAck(_) => FaultKeepsInv(s, a);
    case Abort(_) => FaultKeepsInv(s, a);
    case Advance(w) =>
      if w < |s.callers| && !s.callers[w].Idle? {
        if Trying(s.callers[w]) { AnswerKeepsInv(s, w); } else { DecideKeepsInv(s, w); }
      }
    case _ =>
      if a.w < |s.callers| { GotoKeepsInv(s, a.w, Step(s, a).callers[a.w]); }
  }

  /**
   * Under any callers, any interleaving and any retries after lost
   * acknowledgements: every item's moves are exactly the path from OPEN to its
   * state (so each edge was applied at most once), at most one caller is told it
   * won an edge, an item is CLOSED if and only if it has exactly one analysis, and
   * that one is sound; the clock-skew failure is never reported.
   */
  lemma {:induction false} RunKeepsInv(s: State, actions: seq<Action>)
    requires Inv(s)
    ensures Inv(Run(s, actions))
    decreases |actions|
  {
    if actions != [] {
      StepKeepsInv(s, actions[0]);
      RunKeepsInv(Step(s, actions[0]), actions[1..]);
    }
  }

  lemma {:induction false} MovesInside(audit: seq<Audit>, a: Audit)
    requires a in Moves(audit)
    ensures a in audit
  {
    if a != audit[0] { MovesInside(audit[1..], a); }
  }

  lemma WinIsOnRecord(s: State, t: Told)
    requires Inv(s) && t in s.log && t.outcome.Won?
    ensures t.item < |s.items| && Audit(t.outcome.from, t.outcome.to) in s.items[t.item].audit
  {
    assert WonOk(s.items, t) && ItemOk(s.items[t.item]);
    MovesInside(s.items[t.item].audit, Audit(t.outcome.from, t.outcome.to));
  }

  /**
   * The same for every run from the empty system, with the promises spelled out: the
   * moves on record are the path to the state, a win is on record, and no edge of an
   * item is won twice.
   */
  lemma EachEdgeOnce(k: nat, actions: seq<Action>)
    ensures var s := Run(Init(k), actions);
      && (forall i :: 0 <= i < |s.items| ==> Moves(s.items[i].audit) == PathTo(s.items[i].state))
      && (forall t :: t in s.log && t.outcome.Won? ==>
            t.item < |s.items| && Audit(t.outcome.from, t.outcome.to) in s.items[t.item].audit)
      && (forall i, j :: 0 <= i < j < |s.log| ==> !SameWin(s.log[i], s.log[j]))
      && (forall t :: t in s.log ==> !t.outcome.MttrFailed?)
  {
    RunKeepsInv(Init(k), actions);
    var s := Run(Init(k), actions);
    forall i | 0 <= i < |s.items| ensures Moves(s.items[i].audit) == PathTo(s.items[i].state) { assert ItemOk(s.items[i]); }
    forall t | t in s.log && t.outcome.Won?
      ensures t.item < |s.items| && Audit(t.outcome.from, t.outcome.to) in s.items[t.item].audit
    {
      WinIsOnRecord(s, t);
    }
  }

  /** The reachable-state form of the closing rule. */
  lemma ClosedIffOneRca(k: nat, actions: seq<Action>, id: ItemId)
    requires id < |Run(Init(k), actions).items|
    ensures var it := Run(Init(k), actions).items[id];
      && (it.state == CLOSED <==> |it.rcas| == 1)
      && |it.rcas| <= 1
      && (forall r :: r in it.rcas ==> SoundRca(it.firstSignalAt, r) && it.closedAt == Some(r.submittedAt))
  {
    RunKeepsInv(Init(k), actions);
    assert ItemOk(Run(Init(k), actions).items[id]);
  }

  /** The plain transition call never closes an item: a step that does is an RCA submission. */
  lemma OnlyRcaCloses(s: State, a: Action, id: ItemId)
    requires Inv(s) && id < |s.items| && s.items[id].state != CLOSED && Step(s, a).items[id].state == CLOSED
    ensures (a.Advance? || a.LoseAck?) && a.w < |s.callers| && s.callers[a.w].TryRca? && s.callers[a.w].item == id
  {
    assert a.Advance? || a.LoseAck?;
    assert PhaseOk(s.items, s.callers[a.w]);
  }

  /** One edge forward or none; when it started never changes, and CLOSED is final. */
  predicate Follows(it: Item, it': Item) {
    && it'.firstSignalAt == it.firstSignalAt
    && (it'.state == it.state || Target(it.state) == Some(it'.state))
    && (it.state == CLOSED ==> it'.rcas == it.rcas && it'.closedAt == it.closedAt)
  }

  lemma TransitionFollows(it: Item, from: Status, to: Status, now: int)
    requires Target(from) == Some(to) && to != CLOSED && TransitionTx(it, from, to, now).Some?
    ensures Follows(it, TransitionTx(it, from, to, now).value)
  {
  }

  lemma TxFollows(items: seq<Item>, p: Phase)
    requires Trying(p) && PhaseOk(items, p) && p.item < |items| && Tx(p, items[p.item]).Some?
    ensures Follows(items[p.item], Tx(p, items[p.item]).value)
  {
    match p
    case TryTransition(_, from, to, now, _) => TransitionFollows(items[p.item], from, to, now);
    case _ =>
  }

  lemma CommitFollows(s: State, w: CallerId, id: ItemId)
    requires Inv(s) && w < |s.callers| && Trying(s.callers[w]) && id < |s.items|
    ensures |Commit(s, w).items| == |s.items| && Follows(s.items[id], Commit(s, w).items[id])
  {
    var p := s.callers[w];
    assert PhaseOk(s.items, p);
    if p.item < |s.items| && Tx(p, s.items[p.item]).Some? { TxFollows(s.items, p); }
  }

  lemma AnswerItems(s: State, w: CallerId)
    requires w < |s.callers| && Trying(s.callers[w])
    ensures Answer(s, w).items == Commit(s, w).items
  {
  }

  lemma DecideItems(s: State, w: CallerId)
    requires w < |s.callers| && !Trying(s.callers[w])
    ensures Proceed(s, w).items == s.items
  {
  }

  /** A state is left only along its edge, one edge per step, and nothing ever goes back. */
  lemma StepFollowsGraph(s: State, a: Action, id: ItemId)
    requires Inv(s) && id < |s.items|
    ensures id < |Step(s, a).items| && Follows(s.items[id], Step(s, a).items[id])
  {
    match a
    case Advance(w) =>
      if w < |s.callers| {
        if Trying(s.callers[w]) {
          AnswerItems(s, w);
          CommitFollows(s, w, id);
        } else {
          DecideItems(s, w);
        }
      }
    case LoseAck(w) => if w < |s.callers| && Trying(s.callers[w]) { CommitFollows(s, w, id); }
    case CreateItem(_) =>
    case _ => assert Step(s, a).items == s.items;
  }

  // ---------------------------------------------------------------- who is told

  /** Somebody was told of winning the edge of item `id` that ends in `to`. */
  predicate HasWin(log: seq<Told>, id: ItemId, to: Status) {
    exists t :: t in log && t.item == id && t.outcome.Won? && t.outcome.to == to
  }

  /** The state has come past the edge that ends in `to`. */
  predicate Passed(it: Item, to: Status) {
    1 <= Progress(to) <= Progress(it.state)
  }

  /** Every edge on the way of item `id` to its state has a winner who was told. */
  ghost predicate ToldInFull(s: State, id: ItemId) {
    id < |s.items| ==> forall to :: Passed(s.items[id], to) ==> HasWin(s.log, id, to)
  }

  ghost predicate AllTold(s: State) {
    forall id: ItemId :: ToldInFull(s, id)
  }

  /** The step commits a change of some item's state and loses the acknowledgement. */
  predicate LosesMove(s: State, a: Action) {
    && a.LoseAck?
    && a.w < |s.callers| && Trying(s.callers[a.w]) && s.callers[a.w].item < |s.items|
    && Commit(s, a.w).items[s.callers[a.w].item].state != s.items[s.callers[a.w].item].state
  }

  ghost predicate NothingLost(s: State, actions: seq<Action>)
    decreases |actions|
  {
    actions == [] || (!LosesMove(s, actions[0]) && NothingLost(Step(s, actions[0]), actions[1..]))
  }

  lemma PassedOne(it: Item, it': Item, to: Status)
    requires Follows(it, it') && Passed(it', to) && !Passed(it, to)
    ensures it'.state == to && Target(it.state) == Some(to)
  {
  }

  lemma WinsStay(log: seq<Told>, more: seq<Told>, id: ItemId, to: Status)
    requires HasWin(log, id, to)
    ensures HasWin(log + more, id, to)
  {
    var t :| t in log && t.item == id && t.outcome.Won? && t.outcome.to == to;
    assert t in log + more;
  }

  /** A commit moves at most the row it addresses, and to the state its answer names. */
  lemma CommitMoves(s: State, w: CallerId, id: ItemId)
    requires Inv(s) && w < |s.callers| && Trying(s.callers[w]) && id < |s.items|
    requires Commit(s, w).items[id].state != s.items[id].state
    ensures s.callers[w].item == id && Tx(s.callers[w], s.items[id]).Some?
    ensures Verdict(s.callers[w], true) == Some(Won(s.items[id].state, Commit(s, w).items[id].state))
  {
    assert PhaseOk(s.items, s.callers[w]);
  }

  /** An acknowledged commit is told. */
  lemma AnswerTells(s: State, w: CallerId, id: ItemId)
    requires Inv(s) && AllTold(s) && w < |s.callers| && Trying(s.callers[w])
    ensures ToldInFull(Answer(s, w), id)
  {
    var u := Answer(s, w);
    AnswerItems(s, w);
    if id < |s.items| {
      CommitFollows(s, w, id);
      assert ToldInFull(s, id);
      forall to | Passed(u.items[id], to) ensures HasWin(u.log, id, to) {
        assert u.log == s.log + u.log[|s.log|..];
        if Passed(s.items[id], to) {
          WinsStay(s.log, u.log[|s.log|..], id, to);
        } else {
          PassedOne(s.items[id], u.items[id], to);
          CommitMoves(s, w, id);
          assert u.log == s.log + [Told(w, id, Won(s.items[id].state, to))];
          assert Told(w, id, Won(s.items[id].state, to)) in u.log;
        }
      }
    }
  }

  /** A step that moves no state and forgets nothing leaves everything told. */
  lemma StillTold(s: State, u: State, id: ItemId)
    requires AllTold(s) && s.log <= u.log
    requires id < |u.items| ==> if id < |s.items| then u.items[id].state == s.items[id].state else u.items[id].state == OPEN
    ensures ToldInFull(u, id)
  {
    if id < |s.items| {
      assert ToldInFull(s, id);
      forall to | id < |u.items| && Passed(u.items[id], to) ensures HasWin(u.log, id, to) {
        WinsStay(s.log, u.log[|s.log|..], id, to);
        assert u.log == s.log + u.log[|s.log|..];
      }
    }
  }

  lemma LossyItems(s: State, w: CallerId, id: ItemId)
    requires Inv(s) && w < |s.callers| && Trying(s.callers[w]) && !LosesMove(s, LoseAck(w)) && id < |s.items|
    ensures |Commit(s, w).items| == |s.items| && Commit(s, w).items[id].state == s.items[id].state
  {
    if Commit(s, w).items[id].state != s.items[id].state { CommitMoves(s, w, id); }
  }

  lemma DecideLog(s: State, w: CallerId)
    requires w < |s.callers| && !Trying(s.callers[w])
    ensures s.log <= Proceed(s, w).log
  {
  }

  lemma StepKeepsTold(s: State, a: Action)
    requires Inv(s) && AllTold(s) && !LosesMove(s, a)
    ensures AllTold(Step(s, a))
  {
    var u := Step(s, a);
    forall id: ItemId ensures ToldInFull(u, id) {
      match a
      case Advance(w) =>
        if w < |s.callers| && Trying(s.callers[w]) {
          AnswerTells(s, w, id);
        } else {
          if w < |s.callers| { DecideItems(s, w); DecideLog(s, w); }
          StillTold(s, u, id);
        }
      case LoseAck(w) =>
        if w < |s.callers| && Trying(s.callers[w]) && id < |s.items| { LossyItems(s, w, id); }
        if id >= |s.items| { assert |u.items| == |s.items|; }
        StillTold(s, u, id);
      case _ => StillTold(s, u, id);
    }
  }

  /** An edge that is behind the item and that nobody was told of. */
  predicate Untold(s: State, id: ItemId, to: Status) {
    id < |s.items| && Passed(s.items[id], to) && !HasWin(s.log, id, to)
  }

  lemma LossIsUntold(s: State, a: Action)
    requires Inv(s) && LosesMove(s, a)
    ensures var id := s.callers[a.w].item; Untold(Step(s, a), id, Step(s, a).items[id].state)
  {
    var id := s.callers[a.w].item;
    CommitFollows(s, a.w, id);
    var to := Step(s, a).items[id].state;
    forall t | t in s.log && t.item == id && t.outcome.Won? ensures t.outcome.to != to { assert WonOk(s.items, t); }
  }

  /** Before its transaction a caller is told of no win. */
  lemma DecideTellsNoWin(s: State, w: CallerId, id: ItemId, to: Status)
    requires w < |s.callers| && !Trying(s.callers[w]) && !HasWin(s.log, id, to)
    ensures !HasWin(Proceed(s, w).log, id, to)
  {
    var log := Proceed(s, w).log;
    assert forall t :: t in log && t.outcome.Won? ==> t in s.log;
  }

  /** Nobody is ever told of an edge that is already behind the item. */
  lemma StaysUntold(s: State, a: Action, id: ItemId, to: Status)
    requires Inv(s) && Untold(s, id, to)
    ensures Untold(Step(s, a), id, to)
  {
    StepFollowsGraph(s, a, id);
    if a.Advance? && a.w < |s.callers| {
      if Trying(s.callers[a.w]) { AnswerIsNews(s, a.w, id, to); } else { DecideTellsNoWin(s, a.w, id, to); }
    } else {
      assert Step(s, a).log == s.log;
    }
  }

  lemma AnswerIsNews(s: State, w: CallerId, id: ItemId, to: Status)
    requires Inv(s) && Untold(s, id, to) && w < |s.callers| && Trying(s.callers[w])
    ensures !HasWin(Answer(s, w).log, id, to)
  {
    var p := s.callers[w];
    var committed := p.item < |s.items| && Tx(p, s.items[p.item]).Some?;
    assert PhaseOk(s.items, p);
    var o := Verdict(p, committed);
    assert Answer(s, w).log == if o.Some? then s.log + [Told(w, p.item, o.value)] else s.log;
    assert p.item == id && committed ==> o.None? || o.value.to != to;
  }

  lemma {:induction false} UntoldForever(s: State, actions: seq<Action>, id: ItemId, to: Status)
    requires Inv(s) && Untold(s, id, to)
    ensures Untold(Run(s, actions), id, to)
    decreases |actions|
  {
    if actions != [] {
      StepKeepsInv(s, actions[0]);
      StaysUntold(s, actions[0], id, to);
      UntoldForever(Step(s, actions[0]), actions[1..], id, to);
    }
  }

  lemma {:induction false} ToldFrom(s: State, actions: seq<Action>)
    requires Inv(s) && AllTold(s)
    ensures AllTold(Run(s, actions)) <==> NothingLost(s, actions)
    decreases |actions|
  {
    if actions != [] {
      var u := Step(s, actions[0]);
      StepKeepsInv(s, actions[0]);
      if LosesMove(s, actions[0]) {
        var id := s.callers[actions[0].w].item;
        LossIsUntold(s, actions[0]);
        UntoldForever(u, actions[1..], id, u.items[id].state);
        assert !ToldInFull(Run(u, actions[1..]), id);
      } else {
        StepKeepsTold(s, actions[0]);
        ToldFrom(u, actions[1..]);
      }
    }
  }

  /**
   * Every edge behind every item has a caller who was told of winning it, exactly on the
   * runs in which no acknowledgement of a change of state was lost.
   */
  lemma WinnersAreTold(k: nat, actions: seq<Action>)
    ensures AllTold(Run(Init(k), actions)) <==> NothingLost(Init(k), actions)
  {
    ToldFrom(Init(k), actions);
  }

  /** A caller whose commit was not acknowledged and who retries is told of a conflict it caused itself. */
  lemma LostAckReadsAsConflict(s: State, w: CallerId, p: Phase)
    requires Inv(s) && w < |s.callers| && s.callers[w] == p && Trying(p) && !p.TryEscalation? && p.attempt < ATTEMPTS
    requires p.item < |s.items| && Tx(p, s.items[p.item]).Some?
    ensures var t := Step(Step(s, LoseAck(w)), Advance(w));
      && t.items == Commit(s, w).items && t.items[p.item].state != s.items[p.item].state
      && t.log == s.log + [Told(w, p.item, if p.TryRca? then InvalidState else Conflict)]
  {
    assert PhaseOk(s.items, p);
    var s1 := Step(s, LoseAck(w));
    assert s1.callers[w] == Retried(p);
    assert Tx(s1.callers[w], s1.items[p.item]).None?;
  }
}
