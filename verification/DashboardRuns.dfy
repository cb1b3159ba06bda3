/** Whole sequential runs of the dashboard: write-through mutations, lost summary keys, and reads that refill. */
module DashboardRuns {
  import opened Options
  import opened Severities
  import opened Ordering
  import opened Dashboard
  import RcaRules

  datatype Op =
    | Create(id: Id, row: Row)
    | CountSignals(id: Id, more: nat)
    | Transition(id: Id, to: RcaRules.Status)
    | Close(id: Id)
    | LoseSummaries(ids: set<Id>)
    | ReadPage(query: seq<Id>, limit: nat, offset: nat)
    | ReadDetail(id: Id)
    | Tick(ms: nat)

  datatype Detail = Detail(summary: Summary, legalNextStates: seq<RcaRules.Status>, hasRca: bool)

  /** `getIncidentDetail`: from the cache without asking for a root cause record, else from Postgres with a refill. */
  function GetDetail(w: World, id: Id): (Option<Detail>, World) {
    if id in w.summaries then
      var s := w.summaries[id];
      (Some(Detail(s, RcaRules.LegalNextStates(s.row.state), false)), w)
    else if id !in w.rows then (None, w)
    else
      var r := w.rows[id];
      (Some(Detail(FromPostgres(id, r), RcaRules.LegalNextStates(r.state), r.hasRca)),
       if r.state != RcaRules.CLOSED then Upsert(w, id) else w)
  }

  function Write(w: World, id: Id, r: Row): World { w.(rows := w.rows[id := r.(updatedAt := w.clock)]) }

  function Counted(r: Row, more: nat): Row { r.(signalCount := r.signalCount + more) }

  ghost function Apply(w: World, cap: nat, op: Op): World {
    match op
    case Create(id, row) =>
      if id !in w.rows && InRange(row) && row.state == RcaRules.OPEN && !row.hasRca
      then Upsert(Write(w, id, row), id) else w
    case CountSignals(id, more) =>
      if id in w.rows
      then Upsert(Write(w, id, Counted(w.rows[id], more)), id) else w
    case Transition(id, to) =>
      if id in w.rows && to != RcaRules.CLOSED && RcaRules.Target(w.rows[id].state) == Some(to)
      then Upsert(Write(w, id, w.rows[id].(state := to)), id) else w
    case Close(id) =>
      if id in w.rows && w.rows[id].state == RcaRules.RESOLVED
      then RemoveIncident(Write(w, id, w.rows[id].(state := RcaRules.CLOSED, hasRca := true)), id) else w
    case LoseSummaries(ids) => w.(summaries := w.summaries - ids)
    case ReadPage(query, limit, offset) =>
      if IsQueryOrder(w.rows, query) && limit >= 1 then GetActive(w, query, cap, limit, offset).1 else w
    case ReadDetail(id) => GetDetail(w, id).1
    case Tick(ms) => w.(clock := w.clock + ms)
  }

  ghost function Run(w: World, cap: nat, ops: seq<Op>): World
    decreases |ops|
  {
    if ops == [] then w else Run(Apply(w, cap, ops[0]), cap, ops[1..])
  }

  const COLD := World(map[], [], map[], 0)

  /** After a row is written, only that row can be out of step with the cache. */
  lemma WriteLeavesOne(w: World, id: Id, r: Row)
    requires Coherent(w) && InRange(r) && (r.hasRca ==> r.state == RcaRules.CLOSED)
    ensures CoherentExcept(Write(w, id, r), id)
  {
    var t := Write(w, id, r);
    forall k | Active(t.rows, k) && k != id ensures EntryOf(t.rows, k) in t.zset {
      assert Active(w.rows, k);
    }
    forall e | e in t.zset && e.id != id ensures Active(t.rows, e.id) && e == EntryOf(t.rows, e.id) {
      assert Active(w.rows, e.id);
    }
  }

  lemma WriteThrough(w: World, id: Id, r: Row)
    requires Coherent(w) && InRange(r) && (r.hasRca ==> r.state == RcaRules.CLOSED)
    ensures Coherent(Upsert(Write(w, id, r), id))
  {
    WriteLeavesOne(w, id, r);
    UpsertRestores(Write(w, id, r), id);
  }

  lemma DetailKeeps(w: World, id: Id)
    requires Coherent(w)
    ensures Coherent(GetDetail(w, id).1) && GetDetail(w, id).1.rows == w.rows
    ensures Active(w.rows, id) ==> id in GetDetail(w, id).1.summaries
  {
    if id !in w.summaries && id in w.rows && w.rows[id].state != RcaRules.CLOSED {
      UpsertRefreshes(w, id);
    }
  }

  lemma CreateKeeps(w: World, cap: nat, id: Id, row: Row)
    requires Coherent(w)
    ensures Coherent(Apply(w, cap, Create(id, row)))
  {
    if id !in w.rows && InRange(row) && row.state == RcaRules.OPEN && !row.hasRca { WriteThrough(w, id, row); }
  }

  /** Only the row of `id` differs, and the cache shows it at once if it is active, and not at all if it is closed. */
  ghost predicate WrittenThrough(w: World, w': World, id: Id) {
    && id in w'.rows && w'.rows.Keys == w.rows.Keys
    && (forall k :: k in w.rows && k != id ==> w'.rows[k] == w.rows[k])
    && (w'.rows[id].state != RcaRules.CLOSED <==> id in w'.summaries)
    && (id in w'.summaries ==> Depicts(w'.summaries[id], id, w'.rows[id]))
    && (id in w'.summaries <==> exists e :: e in w'.zset && e.id == id)
  }

  lemma UpsertWrites(w: World, id: Id, r: Row)
    requires id in w.rows
    ensures WrittenThrough(w, Upsert(Write(w, id, r), id), id)
    ensures Upsert(Write(w, id, r), id).rows[id] == r.(updatedAt := w.clock)
  {
    var t := Write(w, id, r);
    if Active(t.rows, id) { assert EntryOf(t.rows, id) in Upsert(t, id).zset; }
  }

  lemma CountKeeps(w: World, cap: nat, id: Id, more: nat)
    requires Coherent(w)
    ensures Coherent(Apply(w, cap, CountSignals(id, more)))
    ensures id in w.rows ==>
      && WrittenThrough(w, Apply(w, cap, CountSignals(id, more)), id)
      && Apply(w, cap, CountSignals(id, more)).rows[id]
           == w.rows[id].(signalCount := w.rows[id].signalCount + more, updatedAt := w.clock)
  {
    if id in w.rows { UpsertWrites(w, id, Counted(w.rows[id], more)); }
    if id in w.rows { WriteThrough(w, id, Counted(w.rows[id], more)); }
  }

  lemma TransitionKeeps(w: World, cap: nat, id: Id, to: RcaRules.Status)
    requires Coherent(w)
    ensures Coherent(Apply(w, cap, Transition(id, to)))
    ensures id in w.rows && to != RcaRules.CLOSED && RcaRules.Target(w.rows[id].state) == Some(to) ==>
      && WrittenThrough(w, Apply(w, cap, Transition(id, to)), id)
      && Apply(w, cap, Transition(id, to)).rows[id] == w.rows[id].(state := to, updatedAt := w.clock)
  {
    if id in w.rows { UpsertWrites(w, id, w.rows[id].(state := to)); }
    if id in w.rows && to != RcaRules.CLOSED && RcaRules.Target(w.rows[id].state) == Some(to) {
      WriteThrough(w, id, w.rows[id].(state := to));
    }
  }

  lemma CloseKeeps(w: World, cap: nat, id: Id)
    requires Coherent(w)
    ensures Coherent(Apply(w, cap, Close(id)))
    ensures id in w.rows && w.rows[id].state == RcaRules.RESOLVED ==>
      && WrittenThrough(w, Apply(w, cap, Close(id)), id)
      && Apply(w, cap, Close(id)).rows[id] == w.rows[id].(state := RcaRules.CLOSED, hasRca := true, updatedAt := w.clock)
  {
    if id in w.rows { UpsertWrites(w, id, w.rows[id].(state := RcaRules.CLOSED, hasRca := true)); }
    if id in w.rows && w.rows[id].state == RcaRules.RESOLVED {
      WriteThrough(w, id, w.rows[id].(state := RcaRules.CLOSED, hasRca := true));
    }
  }

  lemma ReadPageKeeps(w: World, cap: nat, query: seq<Id>, limit: nat, offset: nat)
    requires Coherent(w)
    ensures Coherent(Apply(w, cap, ReadPage(query, limit, offset)))
  {
    if IsQueryOrder(w.rows, query) && limit >= 1 {
      ZsetListsActive(w);
      PageIsSlice(w, query, cap, limit, offset, Ids(w.zset));
    }
  }

  /** Losing summaries, or time passing, changes neither rows nor the sorted set. */
  lemma ForgettingKeeps(w: World, t: World)
    requires Coherent(w) && t.rows == w.rows && t.zset == w.zset
    requires forall id :: id in t.summaries ==> id in w.summaries && t.summaries[id] == w.summaries[id]
    ensures Coherent(t)
  {
  }

  lemma ApplyKeepsCoherent(w: World, cap: nat, op: Op)
    requires Coherent(w)
    ensures Coherent(Apply(w, cap, op))
  {
    match op
    case Create(id, row) => CreateKeeps(w, cap, id, row);
    case CountSignals(id, more) => CountKeeps(w, cap, id, more);
    case Transition(id, to) => TransitionKeeps(w, cap, id, to);
    case Close(id) => CloseKeeps(w, cap, id);
    case ReadPage(query, limit, offset) => ReadPageKeeps(w, cap, query, limit, offset);
    case ReadDetail(id) => DetailKeeps(w, id);
    case LoseSummaries(ids) => ForgettingKeeps(w, w.(summaries := w.summaries - ids));
    case Tick(ms) => ForgettingKeeps(w, w.(clock := w.clock + ms));
  }

  /** Every sequential run with write-through mutations and arbitrary loss of summary keys keeps the cache coherent. */
  lemma {:induction false} RunKeepsCoherent(w: World, cap: nat, ops: seq<Op>)
    requires Coherent(w)
    ensures Coherent(Run(w, cap, ops))
    decreases |ops|
  {
    if ops != [] {
      ApplyKeepsCoherent(w, cap, ops[0]);
      RunKeepsCoherent(Apply(w, cap, ops[0]), cap, ops[1..]);
    }
  }

  /**
   * The listing theorem on reachable states: after any such run, the page read
   * through the cache is the right slice of the active items in the promised order.
   */
  lemma ReachablePage(cap: nat, ops: seq<Op>, query: seq<Id>, limit: nat, offset: nat, listing: seq<Id>)
    requires limit >= 1
    requires IsQueryOrder(Run(COLD, cap, ops).rows, query) && IsListing(Run(COLD, cap, ops).rows, listing)
    ensures var w := Run(COLD, cap, ops);
      var page := GetActive(w, query, cap, limit, offset).0;
      && page.total == |listing|
      && |page.items| == (if offset >= |listing| then 0 else if offset + limit <= |listing| then limit else |listing| - offset)
      && (forall i :: 0 <= i < |page.items| ==>
            && page.items[i].id == listing[offset + i]
            && page.items[i].row.(updatedAt := 0) == w.rows[listing[offset + i]].(updatedAt := 0))
  {
    RunKeepsCoherent(COLD, cap, ops);
    PageIsSlice(Run(COLD, cap, ops), query, cap, limit, offset, listing);
    SliceIs(listing, limit, offset);
  }

  /**
   * The detail view agrees with Postgres in every reachable state: it exists
   * exactly when the row does, shows the row up to `updatedAt`, and a hit's missing
   * root cause record is never wrong.
   */
  lemma ReachableDetail(cap: nat, ops: seq<Op>, id: Id)
    ensures var w := Run(COLD, cap, ops);
      var d := GetDetail(w, id).0;
      && (d.Some? <==> id in w.rows)
      && (d.Some? ==>
            && Depicts(d.value.summary, id, w.rows[id])
            && d.value.legalNextStates == RcaRules.LegalNextStates(w.rows[id].state)
            && d.value.hasRca == w.rows[id].hasRca)
  {
    RunKeepsCoherent(COLD, cap, ops);
  }

  /** A flush is repaired by the next read exactly when the active items fit the cap. */
  lemma FlushIsRepaired(cap: nat, ops: seq<Op>, query: seq<Id>, limit: nat, offset: nat, listing: seq<Id>)
    requires limit >= 1
    requires IsQueryOrder(Run(COLD, cap, ops).rows, query) && IsListing(Run(COLD, cap, ops).rows, listing)
    ensures var flushed := Run(COLD, cap, ops).(zset := [], summaries := map[]);
      var (page, after) := GetActive(flushed, query, cap, limit, offset);
      && (page.total == |listing| <==> |listing| <= cap)
      && (|listing| <= cap ==> Coherent(after) && Shows(flushed.rows, page.items, Slice(listing, limit, offset)))
  {
    RunKeepsCoherent(COLD, cap, ops);
    EmptySetRepairs(Run(COLD, cap, ops).(zset := [], summaries := map[]), query, cap, limit, offset, listing);
  }

  // ---------------------------------------------------------------- the services as an object

  class DashboardService {
    var rows: map<Id, Row>
    var zset: seq<Entry>
    var summaries: map<Id, Summary>
    var clock: int

    function State(): World
      reads this
    {
      World(rows, zset, summaries, clock)
    }

    method RemoveFromCache(id: Id)
      modifies this`zset, this`summaries
      ensures State() == RemoveIncident(old(State()), id)
    {
      summaries := summaries - {id};
      zset := Remove(zset, id);
    }

    method UpsertActiveIncident(id: Id) returns (written: Option<Summary>)
      requires id in rows
      modifies this`zset, this`summaries
      ensures State() == Upsert(old(State()), id)
      ensures written == if rows[id].state == RcaRules.CLOSED then None else Some(ForCache(old(State()), id))
    {
      if rows[id].state == RcaRules.CLOSED {
        RemoveFromCache(id);
        return None;
      }
      var summary := Summary(id, rows[id].(updatedAt := clock));
      summaries := summaries[id := summary];
      zset := ZAdd(zset, Entry(Score(rows[id]), id));
      return Some(summary);
    }

    method GetIncidentSummaryCacheAware(id: Id) returns (summary: Option<Summary>)
      modifies this`zset, this`summaries
      ensures (summary, State()) == SummaryAware(old(State()), id)
    {
      if id in summaries { return Some(summaries[id]); }
      if id !in rows || rows[id].state == RcaRules.CLOSED { return None; }
      summary := UpsertActiveIncident(id);
    }

    method RepopulateActiveCache(active: seq<Id>)
      requires forall id :: id in active ==> id in rows
      modifies this`zset, this`summaries
      ensures State() == UpsertAll(old(State()), active)
    {
      for i := 0 to |active|
        invariant rows == old(rows) && clock == old(clock)
        invariant forall id :: id in active[i..] ==> id in State().rows
        invariant UpsertAll(State(), active[i..]) == UpsertAll(old(State()), active)
      {
        assert active[i..][1..] == active[i + 1..];
        assert active[i] in active;
        var _ := UpsertActiveIncident(active[i]);
      }
    }

    method ReadSummaries(part: seq<Entry>) returns (items: seq<Summary>)
      modifies this`zset, this`summaries
      ensures (items, State()) == Collect(old(State()), part)
    {
      ghost var target := Collect(State(), part);
      items := [];
      assert part[0..] == part && [] + target.0 == target.0;
      for i := 0 to |part|
        invariant rows == old(rows) && clock == old(clock)
        invariant target == Chain(items, Collect(State(), part[i..]))
      {
        assert part[i..][1..] == part[i + 1..];
        CollectNext(State(), part[i..], items);
        var summary := GetIncidentSummaryCacheAware(part[i].id);
        if summary.Some? { items := items + [summary.value]; }
      }
      assert items + [] == items;
    }

    /** `reachable` says whether Redis answers; `query` is the order Postgres returns active rows in. */
    method GetActiveIncidents(reachable: bool, query: seq<Id>, cap: nat, limit: nat, offset: nat) returns (page: Page)
      requires forall id :: id in query ==> id in rows
      modifies this`zset, this`summaries
      ensures reachable ==> (page, State()) == GetActive(old(State()), query, cap, limit, offset)
      ensures !reachable ==> page == GetActiveDirect(old(State()), query, limit, offset) && State() == old(State())
    {
      if !reachable { return GetActiveDirect(State(), query, limit, offset); }
      if |zset| == 0 {
        RepopulateActiveCache(Slice(query, cap, 0));
      }
      var total := |zset|;
      var items := ReadSummaries(ZRange(zset, offset, offset + limit - 1));
      page := Page(items, total);
    }
  }

  lemma CollectNext(w: World, part: seq<Entry>, items: seq<Summary>)
    requires part != []
    ensures var (s, w1) := SummaryAware(w, part[0].id);
      Chain(items, Collect(w, part)) ==
      Chain(if s.Some? then items + [s.value] else items, Collect(w1, part[1..]))
  {
    var (s, w1) := SummaryAware(w, part[0].id);
    var rest := Collect(w1, part[1..]).0;
    if s.Some? { assert items + ([s.value] + rest) == (items + [s.value]) + rest; }
  }

  function Chain(items: seq<Summary>, rest: (seq<Summary>, World)): (seq<Summary>, World) {
    (items + rest.0, rest.1)
  }
}
