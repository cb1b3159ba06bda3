/**
 * The dashboard's active-incident list: a Redis sorted set with a numeric score
 * plus one expiring summary per incident, read cache-first and refilled from
 * Postgres on a miss.
 */
module Dashboard {
  import opened Options
  import opened Severities
  import opened Ordering
  import RcaRules

  type Id = string

  /** The columns of a work item that a summary shows, and whether it has a root cause record. */
  datatype Row = Row(
    componentId: string, componentType: string, severity: Severity, state: RcaRules.Status,
    title: string, firstSignalAt: int, signalCount: nat, updatedAt: int, hasRca: bool)

  datatype Summary = Summary(id: Id, row: Row)

  datatype Page = Page(items: seq<Summary>, total: nat)

  /** Postgres rows, the sorted set in the order ZRANGE walks it, the summary keys, and the clock. */
  datatype World = World(rows: map<Id, Row>, zset: seq<Entry>, summaries: map<Id, Summary>, clock: int)

  const SEVERITY_STRIDE := 10_000_000_000_000

  function Score(r: Row): int { Rank(r.severity) * SEVERITY_STRIDE + r.firstSignalAt }

  predicate Active(rows: map<Id, Row>, id: Id) { id in rows && rows[id].state != RcaRules.CLOSED }

  function EntryOf(rows: map<Id, Row>, id: Id): Entry
    requires id in rows
  {
    Entry(Score(rows[id]), id)
  }

  /** `toIncidentSummary`. */
  function FromPostgres(id: Id, r: Row): Summary { Summary(id, r) }

  /** The summary the cache writes: stamped with the time of writing. */
  function ForCache(w: World, id: Id): Summary
    requires id in w.rows
  {
    Summary(id, w.rows[id].(updatedAt := w.clock))
  }

  /** The summary names `id` and shows its row in every field but `updatedAt`. */
  predicate Depicts(s: Summary, id: Id, r: Row) {
    s.id == id && s.row.(updatedAt := 0) == r.(updatedAt := 0)
  }

  // ---------------------------------------------------------------- the cache

  function ZAdd(z: seq<Entry>, e: Entry): seq<Entry> { Insert(Remove(z, e.id), e) }

  function RemoveIncident(w: World, id: Id): World {
    w.(zset := Remove(w.zset, id), summaries := w.summaries - {id})
  }

  function Upsert(w: World, id: Id): World
    requires id in w.rows
  {
    if !Active(w.rows, id) then RemoveIncident(w, id)
    else w.(zset := ZAdd(w.zset, EntryOf(w.rows, id)), summaries := w.summaries[id := ForCache(w, id)])
  }

  function Clamp(i: int, n: nat): nat { if i < 0 then 0 else if i > n then n else i }

  /** ZRANGE with inclusive bounds, where a negative stop counts from the end. */
  function ZRange(z: seq<Entry>, start: nat, stop: int): seq<Entry> {
    var last := if stop < 0 then |z| + stop else stop;
    var hi := Clamp(last + 1, |z|);
    if start < hi then z[start..hi] else []
  }

  function Slice<T>(s: seq<T>, limit: nat, offset: nat): seq<T> {
    s[Clamp(offset, |s|)..Clamp(offset + limit, |s|)]
  }

  /** A page holds what stands at the positions from `offset` on, at most `limit` of them. */
  lemma SliceIs<T>(s: seq<T>, limit: nat, offset: nat)
    ensures |Slice(s, limit, offset)| == if offset >= |s| then 0 else if offset + limit <= |s| then limit else |s| - offset
    ensures forall i :: 0 <= i < |Slice(s, limit, offset)| ==> Slice(s, limit, offset)[i] == s[offset + i]
  {
  }

  // ---------------------------------------------------------------- the read path

  /** `getIncidentSummaryCacheAware`: cached, or from Postgres with a refill, or gone. */
  function SummaryAware(w: World, id: Id): (Option<Summary>, World) {
    if id in w.summaries then (Some(w.summaries[id]), w)
    else if !Active(w.rows, id) then (None, w)
    else (Some(ForCache(w, id)), Upsert(w, id))
  }

  function Collect(w: World, entries: seq<Entry>): (seq<Summary>, World)
    decreases |entries|
  {
    if entries == [] then ([], w)
    else
      var (s, w1) := SummaryAware(w, entries[0].id);
      var (rest, w2) := Collect(w1, entries[1..]);
      (if s.Some? then [s.value] + rest else rest, w2)
  }

  function UpsertAll(w: World, ids: seq<Id>): World
    requires forall id :: id in ids ==> id in w.rows
    decreases |ids|
  {
    if ids == [] then w else UpsertAll(Upsert(w, ids[0]), ids[1..])
  }

  /**
   * What `ORDER BY severity, firstSignalAt` may return: all active rows, in that
   * order, rows that tie in any order.
   */
  ghost predicate IsQueryOrder(rows: map<Id, Row>, ids: seq<Id>) {
    && (forall i, j :: 0 <= i < j < |ids| ==> ids[i] != ids[j])
    && (forall id :: id in ids <==> Active(rows, id))
    && (forall i :: 0 <= i < |ids| ==> ids[i] in rows)
    && (forall i, j :: 0 <= i < j < |ids| ==> KeyLeq(rows[ids[i]], rows[ids[j]]))
  }

  predicate KeyLeq(a: Row, b: Row) {
    Rank(a.severity) < Rank(b.severity) || (a.severity == b.severity && a.firstSignalAt <= b.firstSignalAt)
  }

  /** `getActiveIncidents` with Redis reachable; `query` is the order Postgres answers in. */
  function GetActive(w: World, query: seq<Id>, cap: nat, limit: nat, offset: nat): (Page, World)
    requires forall id :: id in query ==> id in w.rows
  {
    var w1 := if |w.zset| == 0 then UpsertAll(w, Slice(query, cap, 0)) else w;
    var (items, w2) := Collect(w1, ZRange(w1.zset, offset, offset + limit - 1));
    (Page(items, |w1.zset|), w2)
  }

  function MapRows(rows: map<Id, Row>, ids: seq<Id>): seq<Summary>
    requires forall id :: id in ids ==> id in rows
  {
    if ids == [] then [] else [FromPostgres(ids[0], rows[ids[0]])] + MapRows(rows, ids[1..])
  }

  /** `getActiveIncidentsFromPostgres`, the path taken when Redis cannot be reached. */
  function GetActiveDirect(w: World, query: seq<Id>, limit: nat, offset: nat): Page
    requires forall id :: id in query ==> id in w.rows
  {
    Page(MapRows(w.rows, Slice(query, limit, offset)), |query|)
  }

  // ---------------------------------------------------------------- the reference listing

  /** The order the list promises: severity, then first signal, then id. */
  predicate ListBefore(a: Row, aId: Id, b: Row, bId: Id) {
    || Rank(a.severity) < Rank(b.severity)
    || (a.severity == b.severity && a.firstSignalAt < b.firstSignalAt)
    || (a.severity == b.severity && a.firstSignalAt == b.firstSignalAt && LexLess(aId, bId))
  }

  /** `ids` lists exactly the active incidents in that order. */
  ghost predicate IsListing(rows: map<Id, Row>, ids: seq<Id>) {
    && (forall id :: id in ids <==> Active(rows, id))
    && (forall i :: 0 <= i < |ids| ==> ids[i] in rows)
    && (forall i, j :: 0 <= i < j < |ids| ==> ListBefore(rows[ids[i]], ids[i], rows[ids[j]], ids[j]))
  }

  /** Millisecond timestamps the score encoding has room for. */
  predicate InRange(r: Row) { 0 <= r.firstSignalAt < SEVERITY_STRIDE }

  /** The score puts severity first and the first signal second for all timestamps in range. */
  lemma ScoreEncodes(a: Row, aId: Id, b: Row, bId: Id)
    requires InRange(a) && InRange(b)
    ensures Before(Entry(Score(a), aId), Entry(Score(b), bId)) <==> ListBefore(a, aId, b, bId)
  {
  }

  /** The scores order two rows differently from the list's own keys. */
  predicate Misordered(a: Row, b: Row) {
    || (Score(a) < Score(b)) != ListBefore(a, "", b, "")
    || (Score(b) < Score(a)) != ListBefore(b, "", a, "")
  }

  /** The range is needed: which rows the score can never mis-order against a row in range. */
  lemma RangeIsNeeded(a: Row)
    ensures (forall b: Row :: InRange(b) ==> !Misordered(a, b)) <==>
            (a.severity == P0 || a.firstSignalAt >= 0) && (a.severity == P3 || a.firstSignalAt < SEVERITY_STRIDE)
  {
    var r := Rank(a.severity);
    if a.severity != P0 && a.firstSignalAt < 0 {
      var b := a.(severity := OfRank(r - 1), firstSignalAt := SEVERITY_STRIDE - 1);
      assert InRange(b) && Misordered(a, b);
    } else if a.severity != P3 && a.firstSignalAt >= SEVERITY_STRIDE {
      var b := a.(severity := OfRank(r + 1), firstSignalAt := 0);
      assert InRange(b) && Misordered(a, b);
    }
  }

  // ---------------------------------------------------------------- coherence

  /** The sorted set holds exactly the active rows under their current scores. */
  ghost predicate ZsetOk(w: World) {
    && Sorted(w.zset)
    && (forall e :: e in w.zset ==> Active(w.rows, e.id) && e == EntryOf(w.rows, e.id))
    && (forall id :: Active(w.rows, id) ==> EntryOf(w.rows, id) in w.zset)
  }

  /** A cached summary shows an active row as it is, up to `updatedAt`. */
  ghost predicate SummariesOk(w: World) {
    forall id :: id in w.summaries ==> Active(w.rows, id) && Depicts(w.summaries[id], id, w.rows[id])
  }

  ghost predicate RowsOk(rows: map<Id, Row>) {
    forall id :: id in rows ==> InRange(rows[id]) && (rows[id].hasRca ==> rows[id].state == RcaRules.CLOSED)
  }

  ghost predicate Coherent(w: World) {
    ZsetOk(w) && SummariesOk(w) && RowsOk(w.rows)
  }

  function Ids(z: seq<Entry>): seq<Id> {
    seq(|z|, i requires 0 <= i < |z| => z[i].id)
  }

  /** A coherent sorted set walks the reference listing. */
  lemma ZsetListsActive(w: World)
    requires ZsetOk(w) && RowsOk(w.rows)
    ensures IsListing(w.rows, Ids(w.zset))
  {
    var ids := Ids(w.zset);
    forall id ensures id in ids <==> Active(w.rows, id) {
      if Active(w.rows, id) {
        var k :| 0 <= k < |w.zset| && w.zset[k] == EntryOf(w.rows, id);
        assert ids[k] == id;
      }
    }
    forall i, j | 0 <= i < j < |ids| ensures ListBefore(w.rows[ids[i]], ids[i], w.rows[ids[j]], ids[j]) {
      assert w.zset[i] in w.zset && w.zset[j] in w.zset;
      ScoreEncodes(w.rows[ids[i]], ids[i], w.rows[ids[j]], ids[j]);
    }
  }

  function Entries(rows: map<Id, Row>, ids: seq<Id>): seq<Entry>
    requires forall i :: 0 <= i < |ids| ==> ids[i] in rows
  {
    seq(|ids|, i requires 0 <= i < |ids| => EntryOf(rows, ids[i]))
  }

  lemma ListingEntries(rows: map<Id, Row>, a: seq<Id>)
    requires RowsOk(rows) && IsListing(rows, a)
    ensures Sorted(Entries(rows, a))
    ensures forall e :: e in Entries(rows, a) <==> Active(rows, e.id) && e == EntryOf(rows, e.id)
  {
    var za := Entries(rows, a);
    forall i, j | 0 <= i < j < |za| ensures Before(za[i], za[j]) {
      ScoreEncodes(rows[a[i]], a[i], rows[a[j]], a[j]);
    }
    forall e ensures e in za <==> Active(rows, e.id) && e == EntryOf(rows, e.id) {
      if e in za {
        var k :| 0 <= k < |za| && za[k] == e;
        assert a[k] in a;
      }
      if Active(rows, e.id) && e == EntryOf(rows, e.id) {
        assert e.id in a;
        var k :| 0 <= k < |a| && a[k] == e.id;
        assert za[k] == e;
      }
    }
  }

  /** There is only one reference listing. */
  lemma ListingUnique(rows: map<Id, Row>, a: seq<Id>, b: seq<Id>)
    requires RowsOk(rows) && IsListing(rows, a) && IsListing(rows, b)
    ensures a == b
  {
    ListingEntries(rows, a);
    ListingEntries(rows, b);
    SortedUnique(Entries(rows, a), Entries(rows, b));
    assert |a| == |Entries(rows, a)| == |b|;
    assert forall i :: 0 <= i < |a| ==> a[i] == Entries(rows, a)[i].id == Entries(rows, b)[i].id == b[i];
  }

  // ---------------------------------------------------------------- the cache operations keep coherence

  lemma ZAddSorted(z: seq<Entry>, e: Entry)
    requires Sorted(z)
    ensures Sorted(ZAdd(z, e))
    ensures forall x :: x in ZAdd(z, e) <==> x == e || (x in z && x.id != e.id)
  {
    RemoveSorted(z, e.id);
    InsertSorted(Remove(z, e.id), e);
  }

  /**
   * Writing a row through to the cache restores coherence for that row and leaves
   * the others: coherent "except for `id`" becomes coherent.
   */
  ghost predicate CoherentExcept(w: World, id: Id) {
    && Sorted(w.zset) && RowsOk(w.rows)
    && (forall e :: e in w.zset && e.id != id ==> Active(w.rows, e.id) && e == EntryOf(w.rows, e.id))
    && (forall k :: Active(w.rows, k) && k != id ==> EntryOf(w.rows, k) in w.zset)
    && (forall k :: k in w.summaries && k != id ==> Active(w.rows, k) && Depicts(w.summaries[k], k, w.rows[k]))
  }

  lemma UpsertRestores(w: World, id: Id)
    requires CoherentExcept(w, id) && id in w.rows
    ensures Coherent(Upsert(w, id)) && Upsert(w, id).rows == w.rows
  {
    if Active(w.rows, id) {
      ZAddSorted(w.zset, EntryOf(w.rows, id));
    } else {
      RemoveSorted(w.zset, id);
    }
  }

  /** In a coherent world writing an active row through again changes its summary only. */
  lemma UpsertRefreshes(w: World, id: Id)
    requires Coherent(w) && Active(w.rows, id)
    ensures Upsert(w, id) == w.(summaries := w.summaries[id := ForCache(w, id)])
    ensures Coherent(Upsert(w, id))
  {
    ZAddSorted(w.zset, EntryOf(w.rows, id));
    SortedUnique(ZAdd(w.zset, EntryOf(w.rows, id)), w.zset);
  }

  // ---------------------------------------------------------------- reading a page

  lemma SummaryAwareOk(w: World, id: Id)
    requires Coherent(w) && Active(w.rows, id)
    ensures var (s, w') := SummaryAware(w, id);
      && s.Some? && Depicts(s.value, id, w.rows[id])
      && Coherent(w') && w'.rows == w.rows && w'.zset == w.zset
      && w'.summaries == w.summaries[id := s.value]
  {
    if id !in w.summaries { UpsertRefreshes(w, id); }
  }

  /** `items` shows the rows of `ids`, one for one and in order, up to `updatedAt`. */
  ghost predicate Shows(rows: map<Id, Row>, items: seq<Summary>, ids: seq<Id>) {
    && |items| == |ids|
    && forall i :: 0 <= i < |ids| ==> ids[i] in rows && Depicts(items[i], ids[i], rows[ids[i]])
  }

  lemma ShowsCons(rows: map<Id, Row>, s: Summary, rest: seq<Summary>, entries: seq<Entry>)
    requires entries != [] && entries[0].id in rows && Depicts(s, entries[0].id, rows[entries[0].id])
    requires Shows(rows, rest, Ids(entries[1..]))
    ensures Shows(rows, [s] + rest, Ids(entries))
  {
    assert Ids(entries) == [entries[0].id] + Ids(entries[1..]);
  }

  lemma {:induction false} CollectOk(w: World, entries: seq<Entry>)
    requires Coherent(w) && forall e :: e in entries ==> Active(w.rows, e.id)
    ensures var (items, w') := Collect(w, entries);
      && Shows(w.rows, items, Ids(entries))
      && Coherent(w') && w'.rows == w.rows && w'.zset == w.zset
    decreases |entries|
  {
    if entries != [] {
      assert entries[0] in entries;
      SummaryAwareOk(w, entries[0].id);
      var (s, w1) := SummaryAware(w, entries[0].id);
      CollectOk(w1, entries[1..]);
      ShowsCons(w.rows, s.value, Collect(w1, entries[1..]).0, entries);
    }
  }

  lemma ZRangeIsSlice(z: seq<Entry>, limit: nat, offset: nat)
    requires limit >= 1
    ensures ZRange(z, offset, offset + limit - 1) == Slice(z, limit, offset)
  {
  }

  /**
   * Cache-first listing refines the direct query: in a coherent world a page is the
   * slice of the active items sorted by (severity, first signal, id), equal in all
   * fields but `updatedAt`, with the right total, and reading keeps coherence.
   */
  lemma PageIsSlice(w: World, query: seq<Id>, cap: nat, limit: nat, offset: nat, listing: seq<Id>)
    requires Coherent(w) && IsQueryOrder(w.rows, query) && limit >= 1 && IsListing(w.rows, listing)
    ensures var (page, w') := GetActive(w, query, cap, limit, offset);
      && Shows(w.rows, page.items, Slice(listing, limit, offset)) && page.total == |listing|
      && Coherent(w') && w'.rows == w.rows
  {
    ZsetListsActive(w);
    ListingUnique(w.rows, listing, Ids(w.zset));
    if |w.zset| == 0 { EmptyQuery(w.rows, query, listing); }
    ZRangeIsSlice(w.zset, limit, offset);
    assert Ids(Slice(w.zset, limit, offset)) == Slice(listing, limit, offset);
    forall e | e in Slice(w.zset, limit, offset) ensures Active(w.rows, e.id) { assert e in w.zset; }
    CollectOk(w, Slice(w.zset, limit, offset));
  }

  lemma EmptyQuery(rows: map<Id, Row>, query: seq<Id>, listing: seq<Id>)
    requires IsQueryOrder(rows, query) && IsListing(rows, listing) && listing == []
    ensures query == []
  {
    NoDupSize(query, listing);
  }

  // ---------------------------------------------------------------- repairing an empty set

  /** Repopulating from an empty set: the set holds what has been written so far. */
  ghost predicate Refilled(w: World, done: seq<Id>) {
    && Sorted(w.zset) && SummariesOk(w) && RowsOk(w.rows)
    && (forall e :: e in w.zset <==> e.id in done && Active(w.rows, e.id) && e == EntryOf(w.rows, e.id))
  }

  lemma UpsertRefills(w: World, id: Id, done: seq<Id>)
    requires Refilled(w, done) && Active(w.rows, id)
    ensures Refilled(Upsert(w, id), done + [id]) && Upsert(w, id).rows == w.rows
  {
    ZAddSorted(w.zset, EntryOf(w.rows, id));
  }

  lemma {:induction false} UpsertAllRefills(w: World, ids: seq<Id>, done: seq<Id>)
    requires Refilled(w, done)
    requires forall id :: id in ids ==> id in w.rows && Active(w.rows, id)
    ensures Refilled(UpsertAll(w, ids), done + ids) && UpsertAll(w, ids).rows == w.rows
    decreases |ids|
  {
    if ids == [] {
      assert done + ids == done;
    } else {
      var w1 := Upsert(w, ids[0]);
      UpsertRefills(w, ids[0], done);
      assert forall id :: id in ids[1..] ==> id in ids;
      assert done + [ids[0]] + ids[1..] == done + ids;
      UpsertAllRefills(w1, ids[1..], done + [ids[0]]);
    }
  }

  lemma FirstPage(rows: map<Id, Row>, query: seq<Id>, cap: nat)
    requires IsQueryOrder(rows, query)
    ensures var part := Slice(query, cap, 0);
      && |part| == (if |query| <= cap then |query| else cap)
      && (|query| <= cap ==> part == query)
      && (forall id :: id in part ==> id in rows && Active(rows, id))
      && (forall i, j :: 0 <= i < j < |part| ==> part[i] != part[j])
  {
    var part := Slice(query, cap, 0);
    assert forall id :: id in part ==> id in query;
  }

  /** Repopulation fetches at most `cap` rows, and all of them exactly when they fit. */
  lemma RepopulateTotal(w: World, query: seq<Id>, cap: nat)
    requires w.zset == [] && SummariesOk(w) && RowsOk(w.rows) && IsQueryOrder(w.rows, query)
    ensures var w1 := UpsertAll(w, Slice(query, cap, 0));
      && Refilled(w1, Slice(query, cap, 0)) && w1.rows == w.rows
      && |w1.zset| == (if |query| <= cap then |query| else cap)
  {
    var part := Slice(query, cap, 0);
    FirstPage(w.rows, query, cap);
    UpsertAllRefills(w, part, []);
    assert [] + part == part;
    SameSize(UpsertAll(w, part), part);
  }

  lemma FullyRefilled(w: World, done: seq<Id>)
    requires Refilled(w, done) && forall id :: Active(w.rows, id) ==> id in done
    ensures Coherent(w)
  {
  }

  lemma SameSize(w: World, done: seq<Id>)
    requires Refilled(w, done) && (forall id :: id in done ==> Active(w.rows, id))
    requires forall i, j :: 0 <= i < j < |done| ==> done[i] != done[j]
    ensures |w.zset| == |done|
  {
    var a := Ids(w.zset);
    forall i, j | 0 <= i < j < |a| ensures a[i] != a[j] {
      BeforeTotal(w.zset[i], w.zset[j]);
      assert w.zset[i] in w.zset && w.zset[j] in w.zset;
    }
    forall id ensures id in a <==> id in done {
      if id in done {
        assert EntryOf(w.rows, id) in w.zset;
        var k :| 0 <= k < |w.zset| && w.zset[k] == EntryOf(w.rows, id);
        assert a[k] == id;
      }
      if id in a {
        var k :| 0 <= k < |a| && a[k] == id;
        assert w.zset[k] in w.zset;
      }
    }
    NoDupSize(a, done);
  }

  function Elements<T(==)>(a: seq<T>): set<T> {
    set x | x in a
  }

  lemma {:induction false} SeqSetSize<T>(a: seq<T>)
    requires forall i, j :: 0 <= i < j < |a| ==> a[i] != a[j]
    ensures |Elements(a)| == |a|
  {
    if a != [] {
      SeqSetSize(a[1..]);
      assert a == [a[0]] + a[1..];
      assert Elements(a) == {a[0]} + Elements(a[1..]);
    }
  }

  lemma NoDupSize<T>(a: seq<T>, b: seq<T>)
    requires forall i, j :: 0 <= i < j < |a| ==> a[i] != a[j]
    requires forall i, j :: 0 <= i < j < |b| ==> b[i] != b[j]
    requires forall x :: x in a <==> x in b
    ensures |a| == |b|
  {
    SeqSetSize(a);
    SeqSetSize(b);
    assert Elements(a) == Elements(b);
  }

  /**
   * A read of an empty set (never populated, or flushed) repairs it: right total,
   * right page and a coherent cache exactly when the active items are within the
   * repopulation cap.
   */
  lemma EmptySetRepairs(w: World, query: seq<Id>, cap: nat, limit: nat, offset: nat, listing: seq<Id>)
    requires w.zset == [] && SummariesOk(w) && RowsOk(w.rows) && IsQueryOrder(w.rows, query) && limit >= 1 && IsListing(w.rows, listing)
    ensures var (page, w') := GetActive(w, query, cap, limit, offset);
      && (page.total == |listing| <==> |listing| <= cap)
      && (|listing| <= cap ==> Coherent(w') && w'.rows == w.rows && Shows(w.rows, page.items, Slice(listing, limit, offset)))
  {
    RepopulateTotal(w, query, cap);
    FirstPage(w.rows, query, cap);
    ListingDistinct(w.rows, listing);
    NoDupSize(query, listing);
    var w1 := UpsertAll(w, Slice(query, cap, 0));
    if |listing| <= cap {
      FullyRefilled(w1, query);
      PageIsSlice(w1, query, cap, limit, offset, listing);
      if |w1.zset| == 0 { EmptyTwice(w1, query, cap); }
      assert GetActive(w, query, cap, limit, offset) == GetActive(w1, query, cap, limit, offset);
    }
  }

  lemma EmptyTwice(w: World, query: seq<Id>, cap: nat)
    requires Coherent(w) && |w.zset| == 0 && IsQueryOrder(w.rows, query)
    ensures UpsertAll(w, Slice(query, cap, 0)) == w
  {
    ZsetListsActive(w);
    EmptyQuery(w.rows, query, Ids(w.zset));
  }

  lemma ListingDistinct(rows: map<Id, Row>, listing: seq<Id>)
    requires IsListing(rows, listing)
    ensures forall i, j :: 0 <= i < j < |listing| ==> listing[i] != listing[j]
  {
    forall i, j | 0 <= i < j < |listing| ensures listing[i] != listing[j] {
      LexAsymmetric(listing[i], listing[j]);
    }
  }

  // ---------------------------------------------------------------- when Redis cannot be reached

  predicate SameKey(a: Row, b: Row) {
    a.severity == b.severity && a.firstSignalAt == b.firstSignalAt
  }

  /** Two orderings of the same rows by the same keys have the same key at every position. */
  lemma SameKeysAt(rows: map<Id, Row>, a: seq<Id>, b: seq<Id>, i: nat)
    requires IsQueryOrder(rows, a) && IsQueryOrder(rows, b) && |a| == |b| && i < |a|
    ensures SameKey(rows[a[i]], rows[b[i]])
  {
    NotEarlier(rows, a, b, i);
    NotEarlier(rows, b, a, i);
  }

  /** Were `a[i]` strictly earlier than `b[i]`, the first `i + 1` of `a` would be among the first `i` of `b`. */
  lemma PrefixInside(rows: map<Id, Row>, a: seq<Id>, b: seq<Id>, i: nat)
    requires IsQueryOrder(rows, a) && IsQueryOrder(rows, b) && i < |a| && i < |b|
    requires !KeyLeq(rows[b[i]], rows[a[i]])
    ensures Elements(a[..i + 1]) <= Elements(b[..i])
  {
    assert forall j :: i <= j < |b| ==> KeyLeq(rows[b[i]], rows[b[j]]);
    forall x | x in Elements(a[..i + 1]) ensures x in Elements(b[..i]) {
      var k :| 0 <= k <= i && a[k] == x;
      assert k == i || KeyLeq(rows[a[k]], rows[a[i]]);
      assert a[k] in a;
      var j :| 0 <= j < |b| && b[j] == x;
      assert b[j] in b[..i];
    }
  }

  lemma NotEarlier(rows: map<Id, Row>, a: seq<Id>, b: seq<Id>, i: nat)
    requires IsQueryOrder(rows, a) && IsQueryOrder(rows, b) && i < |a| && i < |b|
    ensures KeyLeq(rows[b[i]], rows[a[i]])
  {
    var low, below := Elements(a[..i + 1]), Elements(b[..i]);
    SeqSetSize(a[..i + 1]);
    SeqSetSize(b[..i]);
    assert low <= below ==> |below| == |low| + |below - low|;
    if !KeyLeq(rows[b[i]], rows[a[i]]) {
      PrefixInside(rows, a, b, i);
    }
  }

  lemma {:induction false} MapRowsAt(rows: map<Id, Row>, ids: seq<Id>, i: nat)
    requires (forall id :: id in ids ==> id in rows) && i < |ids|
    ensures |MapRows(rows, ids)| == |ids| && MapRows(rows, ids)[i] == FromPostgres(ids[i], rows[ids[i]])
    decreases |ids|
  {
    if i > 0 { MapRowsAt(rows, ids[1..], i - 1); }
    MapRowsLength(rows, ids);
  }

  lemma {:induction false} MapRowsLength(rows: map<Id, Row>, ids: seq<Id>)
    requires forall id :: id in ids ==> id in rows
    ensures |MapRows(rows, ids)| == |ids|
    decreases |ids|
  {
    if ids != [] { MapRowsLength(rows, ids[1..]); }
  }

  lemma ListingIsQueryOrder(rows: map<Id, Row>, listing: seq<Id>)
    requires IsListing(rows, listing)
    ensures IsQueryOrder(rows, listing)
  {
    ListingDistinct(rows, listing);
  }

  /**
   * The unreachable-cache path returns the same data up to ties: same total, same
   * page length, the same severity and first signal at every position, and the
   * very same rows when no two active items tie.
   */
  lemma DirectPageAgrees(w: World, query: seq<Id>, limit: nat, offset: nat, listing: seq<Id>)
    requires IsQueryOrder(w.rows, query) && IsListing(w.rows, listing)
    ensures var page := GetActiveDirect(w, query, limit, offset);
      var ids := Slice(listing, limit, offset);
      && page.total == |listing| && |page.items| == |ids|
      && (forall i :: 0 <= i < |ids| ==> SameKey(page.items[i].row, w.rows[ids[i]]))
      && (NoTies(w.rows) ==> Shows(w.rows, page.items, ids))
  {
    ListingIsQueryOrder(w.rows, listing);
    NoDupSize(query, listing);
    var part, ids := Slice(query, limit, offset), Slice(listing, limit, offset);
    MapRowsLength(w.rows, part);
    forall i | 0 <= i < |ids|
      ensures SameKey(MapRows(w.rows, part)[i].row, w.rows[ids[i]])
      ensures MapRows(w.rows, part)[i].id in query && (NoTies(w.rows) ==> part[i] == ids[i])
      ensures MapRows(w.rows, part)[i] == FromPostgres(part[i], w.rows[part[i]])
    {
      MapRowsAt(w.rows, part, i);
      SameKeysAt(w.rows, query, listing, Clamp(offset, |query|) + i);
      assert part[i] in query && ids[i] in listing;
    }
  }

  ghost predicate NoTies(rows: map<Id, Row>) {
    forall a, b :: Active(rows, a) && Active(rows, b) && SameKey(rows[a], rows[b]) ==> a == b
  }

  function Swapped(ids: seq<Id>, i: nat, j: nat): (r: seq<Id>)
    requires i < |ids| && j < |ids|
    ensures |r| == |ids|
  {
    ids[i := ids[j]][j := ids[i]]
  }

  /** Position `k` of the swapped list holds what position `Across(k)` held. */
  function Across(i: nat, j: nat, k: nat): nat { if k == i then j else if k == j then i else k }

  lemma SwappedAt(ids: seq<Id>, i: nat, j: nat, k: nat)
    requires i < |ids| && j < |ids| && k < |ids|
    ensures Swapped(ids, i, j)[k] == ids[Across(i, j, k)]
  {
  }

  lemma SwappedMembers(ids: seq<Id>, i: nat, j: nat, id: Id)
    requires i < |ids| && j < |ids|
    ensures id in Swapped(ids, i, j) <==> id in ids
  {
    if id in ids {
      var k :| 0 <= k < |ids| && ids[k] == id;
      SwappedAt(ids, i, j, Across(i, j, k));
    }
  }

  /** Rows that tie may change places in an answer of the database. */
  lemma TiesMaySwap(rows: map<Id, Row>, ids: seq<Id>, i: nat, j: nat)
    requires IsQueryOrder(rows, ids) && i < j < |ids| && SameKey(rows[ids[i]], rows[ids[j]])
    ensures IsQueryOrder(rows, Swapped(ids, i, j))
  {
    var r := Swapped(ids, i, j);
    forall id ensures id in r <==> Active(rows, id) { SwappedMembers(ids, i, j, id); }
    forall k | 0 <= k < |r| ensures r[k] in rows && SameKey(rows[r[k]], rows[ids[k]]) { SwappedAt(ids, i, j, k); }
    forall k, l | 0 <= k < l < |r| ensures r[k] != r[l] && KeyLeq(rows[r[k]], rows[r[l]]) {
      SwappedAt(ids, i, j, k);
      SwappedAt(ids, i, j, l);
      assert KeyLeq(rows[ids[k]], rows[ids[l]]);
      assert Across(i, j, k) != Across(i, j, l);
    }
  }

  /** A tie shows: some answer of the database makes a one-row page differ from the list's. */
  lemma TieShows(w: World, listing: seq<Id>, a: Id, b: Id) returns (query: seq<Id>, offset: nat)
    requires IsListing(w.rows, listing) && Active(w.rows, a) && Active(w.rows, b) && a != b
    requires SameKey(w.rows[a], w.rows[b])
    ensures IsQueryOrder(w.rows, query)
    ensures !Shows(w.rows, GetActiveDirect(w, query, 1, offset).items, Slice(listing, 1, offset))
  {
    ListingIsQueryOrder(w.rows, listing);
    var p :| 0 <= p < |listing| && listing[p] == a;
    var q :| 0 <= q < |listing| && listing[q] == b;
    var i, j := if p < q then p else q, if p < q then q else p;
    query, offset := Swapped(listing, i, j), i;
    TiesMaySwap(w.rows, listing, i, j);
    assert Slice(query, 1, i) == [listing[j]] && Slice(listing, 1, i) == [listing[i]];
    MapRowsAt(w.rows, [listing[j]], 0);
  }

  /**
   * The unreachable-cache path shows the very same rows on every page and for every order
   * the database may answer in, exactly when no two active items tie.
   */
  lemma SameListExactly(w: World, listing: seq<Id>)
    requires IsListing(w.rows, listing)
    ensures NoTies(w.rows) <==>
      forall query: seq<Id>, limit: nat, offset: nat :: IsQueryOrder(w.rows, query) ==>
        Shows(w.rows, GetActiveDirect(w, query, limit, offset).items, Slice(listing, limit, offset))
  {
    if NoTies(w.rows) {
      forall query: seq<Id>, limit: nat, offset: nat | IsQueryOrder(w.rows, query)
        ensures Shows(w.rows, GetActiveDirect(w, query, limit, offset).items, Slice(listing, limit, offset))
      {
        DirectPageAgrees(w, query, limit, offset, listing);
      }
    } else {
      var a, b :| Active(w.rows, a) && Active(w.rows, b) && SameKey(w.rows[a], w.rows[b]) && a != b;
      var query, offset := TieShows(w, listing, a, b);
    }
  }
}
