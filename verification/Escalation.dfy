/**
 * Escalating work items that stay OPEN too long, at most once per item, by any
 * number of replicas whose ticks overlap. Claiming a level is two Redis commands:
 * a set-add whose answer decides, then an expiry that every claim renews.
 */
module Escalation {
  import opened Severities

  type ItemId = nat

  /** `floor` is the severity floor of the alert strategy that the component type resolves to. */
  datatype Item = Item(severity: Severity, floor: Severity, firstSignalAt: int, open: bool)

  // ---------------------------------------------------------------- who is overdue

  function AcknowledgeWithinMs(s: Severity): nat {
    match s
    case P0 => 300_000
    case P1 => 900_000
    case P2 => 3_600_000
    case P3 => 14_400_000
  }

  function Reconcile(floor: Severity, reported: Severity): Severity {
    if Rank(reported) < Rank(floor) then reported else floor
  }

  /** The query: OPEN and older than the shortest delay of all. */
  predicate Candidate(it: Item, now: int) {
    it.open && it.firstSignalAt <= now - AcknowledgeWithinMs(P0)
  }

  /** The recheck against the item's own reconciled severity. */
  predicate PassesRecheck(it: Item, now: int) {
    !(now < it.firstSignalAt + AcknowledgeWithinMs(Reconcile(it.floor, it.severity)))
  }

  function Selected(items: seq<Item>, now: int): set<ItemId> {
    set id: nat | id < |items| && Candidate(items[id], now) && PassesRecheck(items[id], now)
  }

  /** Unacknowledged for as long as the reported severity or the component's floor allows, whichever is less. */
  predicate Overdue(it: Item, now: int) {
    var waited := now - it.firstSignalAt;
    waited >= AcknowledgeWithinMs(it.severity) || waited >= AcknowledgeWithinMs(it.floor)
  }

  /** The widened query loses nobody and the recheck keeps exactly the overdue OPEN items. */
  lemma SelectsExactlyOverdue(items: seq<Item>, now: int, id: ItemId)
    requires id < |items|
    ensures id in Selected(items, now) <==> items[id].open && Overdue(items[id], now)
  {
    SeverityShortensDelay(items[id].severity, items[id].floor);
  }

  lemma SeverityShortensDelay(a: Severity, b: Severity)
    ensures Rank(a) <= Rank(b) <==> AcknowledgeWithinMs(a) <= AcknowledgeWithinMs(b)
  {
  }

  /** `tick`'s selection in the source's shape: query, then recheck each candidate. */
  method SelectOverdue(items: seq<Item>, now: int) returns (ids: seq<ItemId>)
    ensures forall id: nat :: id in ids <==> id < |items| && items[id].open && Overdue(items[id], now)
  {
    var cutoff := now - AcknowledgeWithinMs(P0);
    var candidates: seq<ItemId> := [];
    for i := 0 to |items|
      invariant forall id: nat :: id in candidates <==> id < i && Candidate(items[id], now)
    {
      if items[i].open && items[i].firstSignalAt <= cutoff { candidates := candidates + [i]; }
    }
    ids := [];
    assert forall k :: 0 <= k < |candidates| ==> candidates[k] in candidates;
    for k := 0 to |candidates|
      invariant forall id: nat :: id in ids <==> id in candidates[..k] && id < |items| && PassesRecheck(items[id], now)
    {
      assert candidates[..k + 1] == candidates[..k] + [candidates[k]];
      var it := items[candidates[k]];
      var overdueSince := it.firstSignalAt + AcknowledgeWithinMs(Reconcile(it.floor, it.severity));
      if now >= overdueSince { ids := ids + [candidates[k]]; }
    }
    assert candidates[..|candidates|] == candidates;
    forall id: nat | id < |items| ensures id in ids <==> items[id].open && Overdue(items[id], now) {
      SelectsExactlyOverdue(items, now, id);
    }
  }

  // ---------------------------------------------------------------- ticks, claims and expiry

  datatype Key = Forever | Until(deadline: int)

  /** What a tick still has to do: claim the item, or renew its key knowing whether the claim was won. */
  datatype Task = Claim | Renew(won: bool)

  /**
   * One tick of one replica: when it queried, whom it found, what it still has to do for
   * each, and on whom it gave up (Redis refused, or the replica stopped).
   */
  datatype Tick = Tick(start: int, saw: set<ItemId>, tasks: map<ItemId, Task>, dropped: set<ItemId>)

  /**
   * `done` remembers the latest tick that has finished with an item; `escalated` lists
   * won claims, `sent` those whose winner went on to send, `unsent` those whose winner
   * gave up in between.
   */
  datatype State = State(
    items: seq<Item>, now: int, keys: map<ItemId, Key>, ticks: seq<Tick>,
    done: map<ItemId, nat>, escalated: seq<ItemId>, sent: seq<ItemId>, unsent: seq<ItemId>)

  datatype Action =
    | Create(severity: Severity, floor: Severity, firstSignalAt: int)
    | Acknowledge(id: ItemId)
    | StartTick
    | SetAdd(tick: nat, id: ItemId)
    | Expire(tick: nat, id: ItemId)
    | Abandon(tick: nat, id: ItemId)
    | Pass(ms: nat)

  /**
   * Ticks start at most `gap` apart across the fleet, a tick is done with an item within
   * `latency`, keys live for `window`, and no more than `faults` ticks in a row give up
   * on the same item.
   */
  datatype Timing = Timing(gap: nat, latency: nat, window: nat, faults: nat)

  const START := State([], 0, map[], [], map[], [], [], [])

  predicate Live(s: State, id: ItemId) {
    id in s.keys && (s.keys[id].Until? ==> s.now < s.keys[id].deadline)
  }

  predicate Pending(s: State, i: nat, id: ItemId, task: Task) {
    i < |s.ticks| && id in s.ticks[i].tasks && s.ticks[i].tasks[id] == task
  }

  predicate Renewing(s: State, i: nat, id: ItemId) {
    i < |s.ticks| && id in s.ticks[i].tasks && s.ticks[i].tasks[id].Renew?
  }

  /** The tick has won the claim and has not sent yet. */
  predicate Winning(s: State, i: nat, id: ItemId) {
    Renewing(s, i, id) && s.ticks[i].tasks[id].won
  }

  function SetTasks(s: State, i: nat, tasks: map<ItemId, Task>): State
    requires i < |s.ticks|
  {
    s.(ticks := s.ticks[i := s.ticks[i].(tasks := tasks)])
  }

  function Larger(a: nat, b: nat): nat { if a >= b then a else b }

  function Finish(s: State, i: nat, id: ItemId): State
    requires i < |s.ticks|
  {
    SetTasks(s, i, s.ticks[i].tasks - {id})
      .(done := s.done[id := if id in s.done then Larger(s.done[id], i) else i])
  }

  predicate Busy(s: State, i: nat, id: ItemId) { i < |s.ticks| && id in s.ticks[i].tasks }

  predicate Dropped(s: State, i: nat, id: ItemId) { i < |s.ticks| && id in s.ticks[i].dropped }

  function GiveUp(s: State, i: nat, id: ItemId): State
    requires i < |s.ticks|
  {
    s.(ticks := s.ticks[i := s.ticks[i].(tasks := s.ticks[i].tasks - {id}, dropped := s.ticks[i].dropped + {id})],
       unsent := if Winning(s, i, id) then s.unsent + [id] else s.unsent)
  }

  function Step(t: Timing, s: State, a: Action): State {
    match a
    case Create(severity, floor, first) => s.(items := s.items + [Item(severity, floor, first, true)])
    case Acknowledge(id) => if id < |s.items| then s.(items := s.items[id := s.items[id].(open := false)]) else s
    case StartTick =>
      var saw := Selected(s.items, s.now);
      s.(ticks := s.ticks + [Tick(s.now, saw, map id | id in saw :: Claim, {})])
    case SetAdd(i, id) =>
      if !Pending(s, i, id, Claim) then s
      else
        var s1 := SetTasks(s, i, s.ticks[i].tasks[id := Renew(!Live(s, id))]);
        if Live(s, id) then s1 else s1.(keys := s.keys[id := Forever], escalated := s.escalated + [id])
    case Expire(i, id) =>
      if !Renewing(s, i, id) then s
      else
        var s1 := Finish(s, i, id).(sent := if Winning(s, i, id) then s.sent + [id] else s.sent);
        if Live(s, id) then s1.(keys := s.keys[id := Until(s.now + t.window)]) else s1
    case Abandon(i, id) => if Busy(s, i, id) then GiveUp(s, i, id) else s
    case Pass(ms) => s.(now := s.now + ms)
  }

  function Run(t: Timing, s: State, actions: seq<Action>): State
    decreases |actions|
  {
    if actions == [] then s else Run(t, Step(t, s, actions[0]), actions[1..])
  }

  /** A key comes to life only by a claim that is won on it; in particular no expiry brings a lapsed key back. */
  lemma OnlyWinsRevive(t: Timing, s: State, a: Action, id: ItemId)
    requires !Live(s, id) && Live(Step(t, s, a), id)
    ensures a.SetAdd? && a.id == id && Winning(Step(t, s, a), a.tick, id) && Step(t, s, a).escalated == s.escalated + [id]
  {
  }

  /** Time may pass only as far as no pending tick overruns its latency and the next tick is not overdue. */
  ghost predicate MayPass(t: Timing, s: State, now: int) {
    && (forall i: nat, id: nat :: 0 <= i < |s.ticks| && id in s.ticks[i].tasks ==> now <= s.ticks[i].start + t.latency)
    && (s.ticks != [] ==> now <= s.ticks[|s.ticks| - 1].start + t.gap)
  }

  /** One of the ticks `a..a + n` has not given up on the item. */
  ghost predicate Attended(s: State, a: nat, n: nat, id: ItemId) {
    exists j: nat :: a <= j <= a + n && j < |s.ticks| && !Dropped(s, j, id)
  }

  /** Of any `faults + 1` consecutive ticks at least one has not given up on the item. */
  ghost predicate StreakOk(t: Timing, s: State, id: ItemId) {
    forall a: nat :: a + t.faults < |s.ticks| ==> Attended(s, a, t.faults, id)
  }

  /** What the timing allows to happen next. */
  ghost predicate Allowed(t: Timing, s: State, a: Action) {
    && (a.Pass? ==> MayPass(t, s, s.now + a.ms))
    && (a.Abandon? ==> StreakOk(t, Step(t, s, a), a.id))
  }

  ghost predicate Timely(t: Timing, s: State, actions: seq<Action>)
    decreases |actions|
  {
    actions == [] || (Allowed(t, s, actions[0]) && Timely(t, Step(t, s, actions[0]), actions[1..]))
  }

  /**
   * The longest a key may go without a renewal while ticks keep coming: with no gap at
   * all time stands still between ticks.
   */
  function Span(t: Timing): nat {
    if t.gap == 0 then 0 else (t.faults + 1) * t.gap + t.latency
  }

  // ---------------------------------------------------------------- invariants

  ghost predicate ClockOk(t: Timing, s: State) {
    && MayPass(t, s, s.now)
    && (forall i: nat :: 0 <= i < |s.ticks| ==> s.ticks[i].start <= s.now)
    && (forall i, j :: 0 <= i <= j < |s.ticks| ==> s.ticks[i].start <= s.ticks[j].start)
    && (forall i, j :: 0 <= i < |s.ticks| && j == i + 1 < |s.ticks| ==> s.ticks[j].start <= s.ticks[i].start + t.gap)
  }

  predicate Saw(s: State, i: nat, id: ItemId) { i < |s.ticks| && id in s.ticks[i].saw }

  /** Once a tick finds an item, every later tick finds it too until it leaves OPEN for good. */
  ghost predicate SightingsOk(s: State, id: ItemId) {
    && (forall i: nat :: Saw(s, i, id) ==> id < |s.items| && Overdue(s.items[id], s.ticks[i].start))
    && (forall i: nat :: Busy(s, i, id) ==> Saw(s, i, id))
    && (forall i: nat, k: nat :: Saw(s, i, id) && i <= k < |s.ticks| && s.items[id].open ==> Saw(s, k, id))
    && (forall i: nat, k: nat, m: nat :: Saw(s, i, id) && Saw(s, m, id) && i <= k <= m ==> Saw(s, k, id))
  }

  /** Every tick that found the item after tick `from` is still at work on it or has given up. */
  ghost predicate OpenAfter(s: State, id: ItemId, from: int) {
    forall i: nat :: Saw(s, i, id) && i > from ==> Busy(s, i, id) || Dropped(s, i, id)
  }

  /** The key has not been claimed, or it was claimed once and has been kept alive by every finished tick. */
  ghost predicate KeyOk(t: Timing, s: State, id: ItemId) {
    && (id !in s.escalated ==> id !in s.keys && id !in s.done && forall i: nat :: Busy(s, i, id) ==> Pending(s, i, id, Claim))
    && (id in s.escalated ==> id in s.keys)
    && (id !in s.done ==> OpenAfter(s, id, -1))
    && (id in s.keys && s.keys[id].Forever? ==> id !in s.done)
    && (id in s.keys && s.keys[id].Until? ==>
          && id in s.done && Saw(s, s.done[id], id)
          && s.keys[id].deadline >= s.ticks[s.done[id]].start + t.window
          && OpenAfter(s, id, s.done[id]))
  }

  ghost predicate ItemInv(t: Timing, s: State, id: ItemId) {
    SightingsOk(s, id) && KeyOk(t, s, id) && StreakOk(t, s, id)
  }

  ghost predicate Once(ids: seq<ItemId>) {
    forall i, j :: 0 <= i < j < |ids| ==> ids[i] != ids[j]
  }

  ghost predicate Inv(t: Timing, s: State) {
    ClockOk(t, s) && Once(s.escalated) && forall id: nat :: ItemInv(t, s, id)
  }

  lemma {:induction false} StartsWithin(t: Timing, s: State, i: nat, k: nat)
    requires ClockOk(t, s) && i <= k < |s.ticks|
    ensures s.ticks[k].start <= s.ticks[i].start + (k - i) * t.gap
    decreases k
  {
    if i < k {
      StartsWithin(t, s, i, k - 1);
      assert (k - i) * t.gap == (k - 1 - i) * t.gap + t.gap;
    }
  }

  lemma {:induction false} FirstBusy(s: State, id: ItemId, from: nat, i: nat) returns (j: nat)
    requires from < i && Busy(s, i, id)
    ensures from < j <= i && Busy(s, j, id) && forall k: nat :: from < k < j ==> !Busy(s, k, id)
    decreases i - from
  {
    if Busy(s, from + 1, id) { j := from + 1; } else { j := FirstBusy(s, id, from + 1, i); }
  }

  /** Among the ticks after the last finished one, one that has not given up comes soon. */
  lemma BusySoon(t: Timing, s: State, i: nat, id: ItemId) returns (j: nat)
    requires ItemInv(t, s, id) && Busy(s, i, id) && id in s.keys && s.keys[id].Until? && i > s.done[id]
    ensures s.done[id] < j <= s.done[id] + t.faults + 1 && Busy(s, j, id)
  {
    var r := s.done[id];
    j := FirstBusy(s, id, r, i);
    assert Saw(s, i, id) && Saw(s, r, id);
    assert forall k: nat :: r < k < j ==> Saw(s, k, id) && Dropped(s, k, id);
    var a := r + 1;
    if a + t.faults < |s.ticks| {
      assert Attended(s, a, t.faults, id);
      var k: nat :| a <= k <= a + t.faults && k < |s.ticks| && !Dropped(s, k, id);
      assert k >= j;
    }
  }

  lemma Scaled(n: nat, m: nat, x: nat)
    requires n <= m
    ensures n * x <= m * x
  {
  }

  /** While anybody still works on an escalated item its key is alive. */
  lemma KeyStaysAlive(t: Timing, s: State, i: nat, id: ItemId)
    requires ClockOk(t, s) && ItemInv(t, s, id) && Busy(s, i, id) && id in s.escalated
    requires Span(t) < t.window
    ensures Live(s, id)
  {
    if s.keys[id].Until? {
      var r := s.done[id];
      assert Saw(s, i, id);
      if t.gap == 0 {
        StartsWithin(t, s, r, |s.ticks| - 1);
      } else if i <= r {
        assert s.ticks[i].start <= s.ticks[r].start;
        Scaled(0, t.faults + 1, t.gap);
      } else {
        var j := BusySoon(t, s, i, id);
        StartsWithin(t, s, r, j);
        Scaled(j - r, t.faults + 1, t.gap);
      }
    }
  }

  /** Steps that only change what ticks still have to do, by finishing or advancing tasks. */
  ghost predicate SameSightings(s: State, u: State) {
    && u.items == s.items && u.now == s.now && |u.ticks| == |s.ticks|
    && forall i: nat :: 0 <= i < |s.ticks| ==>
         && u.ticks[i].start == s.ticks[i].start && u.ticks[i].saw == s.ticks[i].saw
         && u.ticks[i].tasks.Keys <= s.ticks[i].tasks.Keys
         && s.ticks[i].dropped <= u.ticks[i].dropped
  }

  lemma TicksKeepClock(t: Timing, s: State, u: State)
    requires ClockOk(t, s) && SameSightings(s, u)
    ensures ClockOk(t, u)
  {
    forall i: nat, id: nat | 0 <= i < |u.ticks| && id in u.ticks[i].tasks ensures u.now <= u.ticks[i].start + t.latency {
      assert id in s.ticks[i].tasks.Keys;
    }
  }

  lemma TasksKeepSightings(s: State, u: State, x: ItemId)
    requires SightingsOk(s, x) && SameSightings(s, u)
    ensures SightingsOk(u, x)
  {
    assert forall i: nat :: Saw(u, i, x) <==> Saw(s, i, x);
    forall i: nat | Busy(u, i, x) ensures Saw(u, i, x) { assert x in s.ticks[i].tasks.Keys; assert Busy(s, i, x); }
  }

  lemma StreakKept(t: Timing, s: State, u: State, x: ItemId)
    requires StreakOk(t, s, x) && |u.ticks| == |s.ticks|
    requires forall i: nat :: Dropped(u, i, x) ==> Dropped(s, i, x)
    ensures StreakOk(t, u, x)
  {
    forall a: nat | a + t.faults < |u.ticks| ensures Attended(u, a, t.faults, x) {
      assert Attended(s, a, t.faults, x);
      var j: nat :| a <= j <= a + t.faults && j < |s.ticks| && !Dropped(s, j, x);
      assert !Dropped(u, j, x);
    }
  }

  /** Nothing about item `x` is different. */
  ghost predicate SameAbout(s: State, u: State, x: ItemId) {
    && (x in u.keys <==> x in s.keys) && (x in s.keys ==> u.keys[x] == s.keys[x])
    && (x in u.done <==> x in s.done) && (x in s.done ==> u.done[x] == s.done[x])
    && (x in u.escalated <==> x in s.escalated)
    && (forall i: nat :: Busy(s, i, x) <==> Busy(u, i, x))
    && (forall i: nat :: Dropped(s, i, x) <==> Dropped(u, i, x))
    && (forall i: nat :: Pending(s, i, x, Claim) <==> Pending(u, i, x, Claim))
  }

  lemma OtherItemOk(t: Timing, s: State, u: State, x: ItemId)
    requires ItemInv(t, s, x) && SameSightings(s, u) && SameAbout(s, u, x)
    ensures ItemInv(t, u, x)
  {
    TasksKeepSightings(s, u, x);
    StreakKept(t, s, u, x);
    assert forall i: nat :: Saw(u, i, x) <==> Saw(s, i, x);
  }

  /** A step that touches one item only keeps the invariant if it keeps that item's. */
  lemma OneItemKeeps(t: Timing, s: State, u: State, id: ItemId)
    requires Inv(t, s) && SameSightings(s, u) && Once(u.escalated)
    requires forall x: nat :: x != id ==> SameAbout(s, u, x)
    requires ItemInv(t, u, id)
    ensures Inv(t, u)
  {
    TicksKeepClock(t, s, u);
    forall x: nat ensures ItemInv(t, u, x) {
      if x != id {
        assert ItemInv(t, s, x) && SameAbout(s, u, x);
        OtherItemOk(t, s, u, x);
      }
    }
  }

  lemma SetAddTouches(t: Timing, s: State, i: nat, id: ItemId)
    requires Pending(s, i, id, Claim)
    ensures var u := Step(t, s, SetAdd(i, id));
      SameSightings(s, u) && forall x: nat :: x != id ==> SameAbout(s, u, x)
  {
  }

  lemma SetAddItemOk(t: Timing, s: State, i: nat, id: ItemId)
    requires ItemInv(t, s, id) && Pending(s, i, id, Claim) && (id in s.escalated ==> Live(s, id))
    ensures ItemInv(t, Step(t, s, SetAdd(i, id)), id)
  {
    var u := Step(t, s, SetAdd(i, id));
    SetAddTouches(t, s, i, id);
    TasksKeepSightings(s, u, id);
    assert forall k: nat :: Saw(u, k, id) <==> Saw(s, k, id);
    assert forall k: nat :: Busy(u, k, id) <==> Busy(s, k, id);
    assert forall k: nat :: Dropped(u, k, id) <==> Dropped(s, k, id);
    StreakKept(t, s, u, id);
  }

  lemma SetAddKeeps(t: Timing, s: State, i: nat, id: ItemId)
    requires Inv(t, s) && Pending(s, i, id, Claim) && Span(t) < t.window
    ensures Inv(t, Step(t, s, SetAdd(i, id)))
  {
    var u := Step(t, s, SetAdd(i, id));
    assert ItemInv(t, s, id) && Busy(s, i, id);
    if id in s.escalated { KeyStaysAlive(t, s, i, id); }
    assert u.escalated == if id in s.escalated then s.escalated else s.escalated + [id];
    SetAddTouches(t, s, i, id);
    SetAddItemOk(t, s, i, id);
    OneItemKeeps(t, s, u, id);
  }

  lemma ExpireTouches(t: Timing, s: State, i: nat, id: ItemId)
    requires Renewing(s, i, id)
    ensures var u := Step(t, s, Expire(i, id));
      SameSightings(s, u) && forall x: nat :: x != id ==> SameAbout(s, u, x)
  {
  }

  lemma ExpireItemOk(t: Timing, s: State, i: nat, id: ItemId)
    requires ClockOk(t, s) && ItemInv(t, s, id) && Renewing(s, i, id) && Live(s, id)
    ensures ItemInv(t, Step(t, s, Expire(i, id)), id)
  {
    var u := Step(t, s, Expire(i, id));
    assert Busy(s, i, id) && Saw(s, i, id);
    ExpireTouches(t, s, i, id);
    TasksKeepSightings(s, u, id);
    assert forall k: nat :: Saw(u, k, id) <==> Saw(s, k, id);
    assert forall k: nat :: Busy(u, k, id) <==> k != i && Busy(s, k, id);
    assert forall k: nat :: Dropped(u, k, id) <==> Dropped(s, k, id);
    assert s.ticks[u.done[id]].start <= s.now;
    StreakKept(t, s, u, id);
  }

  lemma ExpireKeeps(t: Timing, s: State, i: nat, id: ItemId)
    requires Inv(t, s) && Renewing(s, i, id) && Span(t) < t.window
    ensures Inv(t, Step(t, s, Expire(i, id)))
  {
    assert ItemInv(t, s, id) && Busy(s, i, id) && Saw(s, i, id);
    KeyStaysAlive(t, s, i, id);
    ExpireTouches(t, s, i, id);
    ExpireItemOk(t, s, i, id);
    OneItemKeeps(t, s, Step(t, s, Expire(i, id)), id);
  }

  lemma AbandonTouches(s: State, i: nat, id: ItemId)
    requires Busy(s, i, id)
    ensures var u := GiveUp(s, i, id);
      SameSightings(s, u) && forall x: nat :: x != id ==> SameAbout(s, u, x)
  {
  }

  lemma AbandonItemOk(t: Timing, s: State, i: nat, id: ItemId)
    requires ItemInv(t, s, id) && Busy(s, i, id) && StreakOk(t, GiveUp(s, i, id), id)
    ensures ItemInv(t, GiveUp(s, i, id), id)
  {
    var u := GiveUp(s, i, id);
    AbandonTouches(s, i, id);
    TasksKeepSightings(s, u, id);
    assert forall k: nat :: Saw(u, k, id) <==> Saw(s, k, id);
    assert forall k: nat :: Busy(u, k, id) <==> k != i && Busy(s, k, id);
    assert forall k: nat :: Dropped(u, k, id) <==> k == i || Dropped(s, k, id);
    assert forall k: nat :: k != i ==> (Pending(u, k, id, Claim) <==> Pending(s, k, id, Claim));
  }

  /** Giving up leaves the key alone and stays within the allowed streak. */
  lemma AbandonKeeps(t: Timing, s: State, i: nat, id: ItemId)
    requires Inv(t, s) && Busy(s, i, id) && StreakOk(t, GiveUp(s, i, id), id)
    ensures Inv(t, Step(t, s, Abandon(i, id)))
  {
    assert ItemInv(t, s, id);
    AbandonTouches(s, i, id);
    AbandonItemOk(t, s, i, id);
    OneItemKeeps(t, s, GiveUp(s, i, id), id);
  }

  lemma TickKeeps(t: Timing, s: State)
    requires Inv(t, s)
    ensures Inv(t, Step(t, s, StartTick))
  {
    var u, n := Step(t, s, StartTick), |s.ticks|;
    forall x: nat ensures ItemInv(t, u, x) {
      assert ItemInv(t, s, x);
      TickSightings(s, t, x);
      assert forall i: nat :: i < n ==> (Busy(u, i, x) <==> Busy(s, i, x));
      assert forall i: nat :: i < n ==> (Pending(u, i, x, Claim) <==> Pending(s, i, x, Claim));
      assert forall i: nat :: i < n ==> (Saw(u, i, x) <==> Saw(s, i, x));
      assert forall i: nat :: i < n ==> (Dropped(u, i, x) <==> Dropped(s, i, x));
      assert Saw(u, n, x) ==> Pending(u, n, x, Claim) && Busy(u, n, x);
      assert Busy(u, n, x) ==> Saw(u, n, x);
      TickStreak(t, s, x);
    }
  }

  lemma TickStreak(t: Timing, s: State, x: ItemId)
    requires StreakOk(t, s, x)
    ensures StreakOk(t, Step(t, s, StartTick), x)
  {
    var u, n := Step(t, s, StartTick), |s.ticks|;
    assert !Dropped(u, n, x);
    forall a: nat | a + t.faults < |u.ticks| ensures Attended(u, a, t.faults, x) {
      if a + t.faults < n {
        assert Attended(s, a, t.faults, x);
        var j: nat :| a <= j <= a + t.faults && j < n && !Dropped(s, j, x);
        assert !Dropped(u, j, x);
      }
    }
  }

  lemma TickSightings(s: State, t: Timing, x: ItemId)
    requires Inv(t, s)
    ensures SightingsOk(Step(t, s, StartTick), x)
  {
    var u, n := Step(t, s, StartTick), |s.ticks|;
    assert ItemInv(t, s, x);
    assert forall i: nat :: i < n ==> (Saw(u, i, x) <==> Saw(s, i, x));
    assert forall i: nat :: i < n ==> (Busy(u, i, x) <==> Busy(s, i, x));
    if x < |s.items| {
      SelectsExactlyOverdue(s.items, s.now, x);
      assert s.items[x].open ==> forall i: nat :: Saw(s, i, x) ==> Saw(u, n, x) by {
        forall i: nat | Saw(s, i, x) && s.items[x].open ensures Saw(u, n, x) {
          StaysOverdue(s.items[x], s.ticks[i].start, s.now);
        }
      }
    }
    assert Saw(u, n, x) ==> x < |s.items| && s.items[x].open && Overdue(s.items[x], s.now);
  }

  lemma StaysOverdue(it: Item, then_: int, now: int)
    requires Overdue(it, then_) && then_ <= now
    ensures Overdue(it, now)
  {
  }

  /** Items being created or acknowledged, and time passing. */
  lemma QuietKeeps(t: Timing, s: State, u: State)
    requires Inv(t, s) && ClockOk(t, u) && u.ticks == s.ticks && u.keys == s.keys && u.done == s.done && u.escalated == s.escalated
    requires |s.items| <= |u.items|
    requires forall id: nat :: 0 <= id < |s.items| ==> u.items[id] == s.items[id] || u.items[id] == s.items[id].(open := false)
    ensures Inv(t, u)
  {
    forall x: nat ensures ItemInv(t, u, x) {
      assert ItemInv(t, s, x);
      assert forall i: nat :: Saw(u, i, x) <==> Saw(s, i, x);
      assert forall i: nat :: Busy(u, i, x) <==> Busy(s, i, x);
      assert forall i: nat :: Pending(u, i, x, Claim) <==> Pending(s, i, x, Claim);
      assert forall i: nat :: Dropped(u, i, x) <==> Dropped(s, i, x);
      StreakKept(t, s, u, x);
      forall i: nat | Saw(u, i, x) ensures x < |u.items| && Overdue(u.items[x], u.ticks[i].start) {
        assert Overdue(s.items[x], s.ticks[i].start);
      }
    }
  }

  lemma QuietStepKeeps(t: Timing, s: State, a: Action)
    requires Inv(t, s) && (a.Create? || a.Acknowledge? || a.Pass?) && Allowed(t, s, a)
    ensures Inv(t, Step(t, s, a))
  {
    QuietKeeps(t, s, Step(t, s, a));
  }

  lemma StepKeepsInv(t: Timing, s: State, a: Action)
    requires Inv(t, s) && Span(t) < t.window && Allowed(t, s, a)
    ensures Inv(t, Step(t, s, a))
  {
    match a
    case StartTick => TickKeeps(t, s);
    case SetAdd(i, id) => if Pending(s, i, id, Claim) { SetAddKeeps(t, s, i, id); }
    case Expire(i, id) => if Renewing(s, i, id) { ExpireKeeps(t, s, i, id); }
    case Abandon(i, id) => if Busy(s, i, id) { AbandonKeeps(t, s, i, id); }
    case _ => QuietStepKeeps(t, s, a);
  }

  lemma {:induction false} RunKeepsInv(t: Timing, s: State, actions: seq<Action>)
    requires Inv(t, s) && Span(t) < t.window && Timely(t, s, actions)
    ensures Inv(t, Run(t, s, actions))
    decreases |actions|
  {
    if actions != [] {
      StepKeepsInv(t, s, actions[0]);
      RunKeepsInv(t, Step(t, s, actions[0]), actions[1..]);
    }
  }

  /**
   * Across replicas, an item is escalated at most once in its life when renewals come
   * closer together, latency and faults included, than the suppression window: every
   * claim, won or lost, renews the key, and an item that has left OPEN is never found
   * again.
   */
  lemma EscalatedAtMostOnce(t: Timing, actions: seq<Action>)
    requires Span(t) < t.window && Timely(t, START, actions)
    ensures Once(Run(t, START, actions).escalated)
  {
    RunKeepsInv(t, START, actions);
  }

  // ---------------------------------------------------------------- every other timing escalates twice

  /** A timely continuation of `s` that escalates some item a second time. */
  ghost predicate Doubles(t: Timing, s: State, actions: seq<Action>) {
    Timely(t, s, actions) && !Once(Run(t, s, actions).escalated)
  }

  lemma DoublesAfter(t: Timing, s: State, a: Action, rest: seq<Action>)
    requires Allowed(t, s, a) && Doubles(t, Step(t, s, a), rest)
    ensures Doubles(t, s, [a] + rest)
  {
    assert ([a] + rest)[1..] == rest;
  }

  const STUCK := Item(P0, P0, -300_000, true)

  lemma StuckIsFound(now: int)
    requires now >= 0
    ensures Selected([STUCK], now) == {0}
  {
  }

  lemma TickFindsStuck(t: Timing, s: State)
    requires s.items == [STUCK] && s.now >= 0
    ensures Step(t, s, StartTick) == s.(ticks := s.ticks + [Tick(s.now, {0}, map[0 := Claim], {})])
  {
    StuckIsFound(s.now);
    var tick := Step(t, s, StartTick).ticks[|s.ticks|];
    assert tick.tasks == map[0 := Claim];
    assert tick == Tick(s.now, {0}, map[0 := Claim], {});
  }

  /** Tick `p` found the item long ago and still has to claim it; the key lapses at `window`. */
  ghost predicate Waiting(t: Timing, s: State, p: nat) {
    && s.items == [STUCK] && s.escalated == [0] && s.keys == map[0 := Until(t.window)]
    && Pending(s, p, 0, Claim) && s.ticks[p].start <= s.now
    && (forall i: nat, id: nat :: Busy(s, i, id) ==> s.ticks[i].start + t.latency >= t.window)
    && s.ticks[|s.ticks| - 1].start == s.now
  }

  /** Tick after tick starts and waits, one millisecond apart, until the key has lapsed. */
  lemma {:induction false} WaitForLapse(t: Timing, s: State, p: nat) returns (actions: seq<Action>)
    requires Waiting(t, s, p) && (s.now >= t.window || t.gap > 0)
    ensures Doubles(t, s, actions)
    decreases t.window - s.now
  {
    if s.now >= t.window {
      actions := [SetAdd(p, 0)] + [];
      var u := Step(t, s, SetAdd(p, 0));
      assert u.escalated == [0, 0];
      assert Doubles(t, u, []) by { assert u.escalated[0] == u.escalated[1]; }
      DoublesAfter(t, s, SetAdd(p, 0), []);
    } else {
      var s1 := Step(t, s, Pass(1));
      var s2 := Step(t, s1, StartTick);
      var n := |s.ticks|;
      assert MayPass(t, s, s.now + 1) by {
        forall i: nat, id: nat | 0 <= i < n && id in s.ticks[i].tasks ensures s.now + 1 <= s.ticks[i].start + t.latency {
          assert Busy(s, i, id);
        }
      }
      forall i: nat, id: nat | Busy(s2, i, id) ensures s2.ticks[i].start + t.latency >= t.window {
        assert Busy(s, p, 0);
        if i < n { assert Busy(s, i, id); }
      }
      assert Pending(s2, p, 0, Claim);
      var rest := WaitForLapse(t, s2, p);
      DoublesAfter(t, s1, StartTick, rest);
      DoublesAfter(t, s, Pass(1), [StartTick] + rest);
      actions := [Pass(1)] + ([StartTick] + rest);
    }
  }

  /** Tick 0 has claimed and renewed; the `k - 1` ticks after it, one gap apart, have given up. */
  ghost predicate Skipping(t: Timing, s: State, k: nat) {
    && s.items == [STUCK] && s.escalated == [0] && s.keys == map[0 := Until(t.window)]
    && |s.ticks| == k > 0 && !Dropped(s, 0, 0)
    && (forall i: nat, id: nat :: !Busy(s, i, id))
    && s.now == s.ticks[k - 1].start == (k - 1) * t.gap
  }

  lemma {:induction false} SkipTicks(t: Timing, s: State, k: nat) returns (actions: seq<Action>)
    requires Skipping(t, s, k) && k <= t.faults + 1 && Span(t) >= t.window
    ensures Doubles(t, s, actions)
    decreases t.faults + 1 - k
  {
    var s1 := Step(t, s, Pass(t.gap));
    var s2 := Step(t, s1, StartTick);
    assert MayPass(t, s, s.now + t.gap) by {
      assert forall i: nat, id: nat :: i < k && id in s.ticks[i].tasks ==> Busy(s, i, id);
    }
    assert k * t.gap == (k - 1) * t.gap + t.gap;
    TickFindsStuck(t, s1);
    assert forall i: nat, id: nat :: Busy(s2, i, id) <==> i == k && id == 0 by {
      assert forall i: nat, id: nat :: i < k ==> (Busy(s2, i, id) <==> Busy(s, i, id));
    }
    var rest: seq<Action>;
    if k == t.faults + 1 || t.gap == 0 {
      assert Pending(s2, k, 0, Claim);
      rest := WaitForLapse(t, s2, k);
    } else {
      var s3 := Step(t, s2, Abandon(k, 0));
      assert s3.ticks[..k] == s.ticks;
      assert s3.ticks[k].tasks == map[];
      assert forall i: nat, id: nat :: i < k ==> (Busy(s3, i, id) <==> Busy(s, i, id));
      assert !Dropped(s3, 0, 0);
      assert StreakOk(t, s3, 0) by {
        forall a: nat | a + t.faults < |s3.ticks| ensures Attended(s3, a, t.faults, 0) { assert a == 0; }
      }
      var more := SkipTicks(t, s3, k + 1);
      DoublesAfter(t, s2, Abandon(k, 0), more);
      rest := [Abandon(k, 0)] + more;
    }
    DoublesAfter(t, s1, StartTick, rest);
    DoublesAfter(t, s, Pass(t.gap), [StartTick] + rest);
    actions := [Pass(t.gap)] + ([StartTick] + rest);
  }

  /** A key that may go a whole window without renewal is claimed a second time by some run. */
  lemma LapsedKeyEscalatesTwice(t: Timing) returns (actions: seq<Action>)
    requires Span(t) >= t.window
    ensures Timely(t, START, actions) && !Once(Run(t, START, actions).escalated)
  {
    var create := Create(P0, P0, -300_000);
    var s1 := Step(t, START, create);
    var s2 := Step(t, s1, StartTick);
    var s3 := Step(t, s2, SetAdd(0, 0));
    var s4 := Step(t, s3, Expire(0, 0));
    assert s1.items == [STUCK];
    TickFindsStuck(t, s1);
    assert s4.ticks == [Tick(0, {0}, map[], {})];
    assert s4.keys == map[0 := Until(t.window)];
    var rest := SkipTicks(t, s4, 1);
    DoublesAfter(t, s3, Expire(0, 0), rest);
    DoublesAfter(t, s2, SetAdd(0, 0), [Expire(0, 0)] + rest);
    DoublesAfter(t, s1, StartTick, [SetAdd(0, 0)] + ([Expire(0, 0)] + rest));
    DoublesAfter(t, START, create, [StartTick] + ([SetAdd(0, 0)] + ([Expire(0, 0)] + rest)));
    actions := [create] + ([StartTick] + ([SetAdd(0, 0)] + ([Expire(0, 0)] + rest)));
  }

  /** Exactly when escalation is once-only: on every timely run, just for timings whose span is below the window. */
  lemma OnceExactly(t: Timing)
    ensures (forall actions: seq<Action> :: Timely(t, START, actions) ==> Once(Run(t, START, actions).escalated))
      <==> Span(t) < t.window
  {
    if Span(t) < t.window {
      forall actions: seq<Action> | Timely(t, START, actions) ensures Once(Run(t, START, actions).escalated) {
        EscalatedAtMostOnce(t, actions);
      }
    } else {
      var actions := LapsedKeyEscalatesTwice(t);
    }
  }

  /** Without faults the condition reads: gap plus latency below the window. */
  lemma OnceWithoutFaults(t: Timing)
    requires t.faults == 0 && t.gap > 0
    ensures (forall actions: seq<Action> :: Timely(t, START, actions) ==> Once(Run(t, START, actions).escalated))
      <==> t.gap + t.latency < t.window
  {
    OnceExactly(t);
  }
}
