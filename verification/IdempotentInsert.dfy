/**
 * Idempotent bulk insertion of signals. Every call looks up which of its ids are
 * already there, then writes the rest with an unordered bulk insert behind a unique
 * index. The look-up and every single document write are separate steps, so calls
 * interleave freely; a call may also fail with some of its documents written.
 */
module IdempotentInsert {
  type SignalId = string

  /** A stored document, with the call and the position in that call that wrote it. */
  datatype Doc = Doc(signalId: SignalId, call: nat, position: nat)

  datatype Phase =
    | Lookup
    | Writing(newDocs: seq<SignalId>, pending: set<nat>, failed: set<nat>)
    | Done(newDocs: seq<SignalId>, failed: set<nat>)
    | Crashed

  datatype Call = Call(batch: seq<SignalId>, phase: Phase)

  datatype State = State(docs: seq<Doc>, calls: seq<Call>)

  datatype Action =
    | NewCall(batch: seq<SignalId>)
    | FindExisting(call: nat)
    | WriteOne(call: nat, position: nat)
    | Finish(call: nat)
    | Crash(call: nat)

  const EMPTY := State([], [])

  predicate Stored(docs: seq<Doc>, id: SignalId) {
    exists i :: 0 <= i < |docs| && docs[i].signalId == id
  }

  /** `signals.filter(not already there)`. */
  function Unseen(docs: seq<Doc>, batch: seq<SignalId>): seq<SignalId> {
    if batch == [] then []
    else (if Stored(docs, batch[0]) then [] else [batch[0]]) + Unseen(docs, batch[1..])
  }

  function Positions(n: nat): (r: set<nat>)
    ensures forall i: nat :: i in r <==> i < n
  {
    if n == 0 then {} else Positions(n - 1) + {n - 1}
  }

  /** The ids at positions `from..` of the insert whose write did not fail: what the call reports. */
  function Kept(newDocs: seq<SignalId>, failed: set<nat>, from: nat): seq<SignalId>
    decreases |newDocs| - from
  {
    if from >= |newDocs| then []
    else (if from in failed then [] else [newDocs[from]]) + Kept(newDocs, failed, from + 1)
  }

  function Goto(s: State, k: nat, p: Phase): State
    requires k < |s.calls|
  {
    s.(calls := s.calls[k := s.calls[k].(phase := p)])
  }

  function Step(s: State, a: Action): State {
    match a
    case NewCall(batch) => s.(calls := s.calls + [Call(batch, Lookup)])
    case FindExisting(k) =>
      if k < |s.calls| && s.calls[k].phase.Lookup? then
        var missing := Unseen(s.docs, s.calls[k].batch);
        Goto(s, k, if missing == [] then Done([], {}) else Writing(missing, Positions(|missing|), {}))
      else s
    case WriteOne(k, i) =>
      if k < |s.calls| && s.calls[k].phase.Writing? && i in s.calls[k].phase.pending && i < |s.calls[k].phase.newDocs| then
        var p := s.calls[k].phase;
        if Stored(s.docs, p.newDocs[i]) then
          Goto(s, k, p.(pending := p.pending - {i}, failed := p.failed + {i}))
        else
          Goto(s.(docs := s.docs + [Doc(p.newDocs[i], k, i)]), k, p.(pending := p.pending - {i}))
      else s
    case Finish(k) =>
      if k < |s.calls| && s.calls[k].phase.Writing? && s.calls[k].phase.pending == {} then
        Goto(s, k, Done(s.calls[k].phase.newDocs, s.calls[k].phase.failed))
      else s
    case Crash(k) =>
      if k < |s.calls| && (s.calls[k].phase.Lookup? || s.calls[k].phase.Writing?) then Goto(s, k, Crashed) else s
  }

  function Run(s: State, actions: seq<Action>): State
    decreases |actions|
  {
    if actions == [] then s else Run(Step(s, actions[0]), actions[1..])
  }

  /** What a finished call reports as inserted. */
  function Report(c: Call): seq<SignalId> {
    if c.phase.Done? then Kept(c.phase.newDocs, c.phase.failed, 0) else []
  }

  // ---------------------------------------------------------------- invariants

  ghost predicate OncePerId(docs: seq<Doc>) {
    forall i, j :: 0 <= i < j < |docs| ==> docs[i].signalId != docs[j].signalId
  }

  /** A bulk insert in progress: position by position, still pending, refused as a duplicate, or written by this call. */
  ghost predicate WritesOk(docs: seq<Doc>, k: nat, newDocs: seq<SignalId>, pending: set<nat>, failed: set<nat>) {
    && (forall i: nat :: i < |newDocs| ==>
          (Doc(newDocs[i], k, i) in docs <==> i !in pending && i !in failed))
    && (forall i :: i in failed ==> i < |newDocs| && Stored(docs, newDocs[i]) && i !in pending)
    && (forall i :: i in pending ==> i < |newDocs|)
  }

  ghost predicate Covered(docs: seq<Doc>, batch: seq<SignalId>, newDocs: seq<SignalId>) {
    && (forall id :: id in batch ==> id in newDocs || Stored(docs, id))
    && (forall id :: id in newDocs ==> id in batch)
  }

  ghost predicate CallOk(docs: seq<Doc>, k: nat, c: Call) {
    match c.phase
    case Lookup => forall d :: d in docs ==> d.call != k
    case Writing(newDocs, pending, failed) => WritesOk(docs, k, newDocs, pending, failed) && Covered(docs, c.batch, newDocs)
    case Done(newDocs, failed) => WritesOk(docs, k, newDocs, {}, failed) && Covered(docs, c.batch, newDocs)
    case Crashed => true
  }

  /** A document was written from a position of the call it names. */
  ghost predicate DocOk(calls: seq<Call>, d: Doc) {
    && d.call < |calls| && d.signalId in calls[d.call].batch
    && match calls[d.call].phase
       case Writing(newDocs, _, _) => d.position < |newDocs| && newDocs[d.position] == d.signalId
       case Done(newDocs, _) => d.position < |newDocs| && newDocs[d.position] == d.signalId
       case _ => true
  }

  ghost predicate Inv(s: State) {
    && OncePerId(s.docs)
    && (forall k :: 0 <= k < |s.calls| ==> CallOk(s.docs, k, s.calls[k]))
    && (forall d :: d in s.docs ==> DocOk(s.calls, d))
  }

  lemma {:induction false} UnseenIn(docs: seq<Doc>, batch: seq<SignalId>)
    ensures forall id :: id in Unseen(docs, batch) <==> id in batch && !Stored(docs, id)
  {
    if batch != [] {
      UnseenIn(docs, batch[1..]);
      assert batch == [batch[0]] + batch[1..];
    }
  }

  /** Moving one call to a sound phase keeps everything, when the documents it has written still fit. */
  lemma GotoKeepsInv(s: State, k: nat, p: Phase)
    requires Inv(s) && k < |s.calls| && CallOk(s.docs, k, s.calls[k].(phase := p))
    requires forall d :: d in s.docs && d.call == k ==> DocOk(Goto(s, k, p).calls, d)
    ensures Inv(Goto(s, k, p))
  {
    var t := Goto(s, k, p);
    forall d | d in t.docs ensures DocOk(t.calls, d) {
      assert DocOk(s.calls, d);
    }
    forall j | 0 <= j < |t.calls| ensures CallOk(t.docs, j, t.calls[j]) {
      assert CallOk(s.docs, j, s.calls[j]);
    }
  }

  lemma StoredGrows(docs: seq<Doc>, d: Doc, id: SignalId)
    ensures Stored(docs + [d], id) <==> Stored(docs, id) || id == d.signalId
  {
    if Stored(docs, id) {
      var i :| 0 <= i < |docs| && docs[i].signalId == id;
      assert (docs + [d])[i].signalId == id;
    }
    assert (docs + [d])[|docs|] == d;
  }

  /** Other calls do not notice a document written by call `k`. */
  lemma OtherCallOk(docs: seq<Doc>, d: Doc, j: nat, c: Call)
    requires CallOk(docs, j, c) && d.call != j
    ensures CallOk(docs + [d], j, c)
  {
    forall id | Stored(docs, id) ensures Stored(docs + [d], id) { StoredGrows(docs, d, id); }
  }

  lemma WriteKeepsInv(s: State, k: nat, i: nat)
    requires Inv(s) && k < |s.calls| && s.calls[k].phase.Writing?
    requires i in s.calls[k].phase.pending && i < |s.calls[k].phase.newDocs|
    requires !Stored(s.docs, s.calls[k].phase.newDocs[i])
    ensures Inv(Step(s, WriteOne(k, i)))
  {
    var p := s.calls[k].phase;
    var d := Doc(p.newDocs[i], k, i);
    var t := Step(s, WriteOne(k, i));
    assert CallOk(s.docs, k, s.calls[k]);
    forall j | 0 <= j < |t.calls| ensures CallOk(t.docs, j, t.calls[j]) {
      assert CallOk(s.docs, j, s.calls[j]);
      if j != k {
        OtherCallOk(s.docs, d, j, s.calls[j]);
      } else {
        forall id | Stored(s.docs, id) ensures Stored(t.docs, id) { StoredGrows(s.docs, d, id); }
      }
    }
    forall e | e in t.docs ensures DocOk(t.calls, e) {
      if e in s.docs {
        assert DocOk(s.calls, e);
      } else {
        assert e == d && p.newDocs[i] in p.newDocs;
      }
    }
  }

  lemma StepKeepsInv(s: State, a: Action)
    requires Inv(s)
    ensures Inv(Step(s, a))
  {
    match a
    case NewCall(batch) =>
      var t := Step(s, a);
      forall d | d in t.docs ensures DocOk(t.calls, d) { assert DocOk(s.calls, d); }
      forall j | 0 <= j < |t.calls| ensures CallOk(t.docs, j, t.calls[j]) {
        if j < |s.calls| { assert CallOk(s.docs, j, s.calls[j]); }
        else { forall d | d in t.docs ensures d.call != j { assert DocOk(s.calls, d); } }
      }
    case FindExisting(k) =>
      if k < |s.calls| && s.calls[k].phase.Lookup? { LookupKeepsInv(s, k); }
    case WriteOne(k, i) =>
      if k < |s.calls| && s.calls[k].phase.Writing? && i in s.calls[k].phase.pending && i < |s.calls[k].phase.newDocs| {
        if Stored(s.docs, s.calls[k].phase.newDocs[i]) { RefuseKeepsInv(s, k, i); } else { WriteKeepsInv(s, k, i); }
      }
    case Finish(k) =>
      if k < |s.calls| && s.calls[k].phase.Writing? && s.calls[k].phase.pending == {} { FinishKeepsInv(s, k); }
    case Crash(k) =>
      if k < |s.calls| && Step(s, a) != s { CrashKeepsInv(s, k); }
  }

  lemma LookupKeepsInv(s: State, k: nat)
    requires Inv(s) && k < |s.calls| && s.calls[k].phase.Lookup?
    ensures Inv(Step(s, FindExisting(k)))
  {
    UnseenIn(s.docs, s.calls[k].batch);
    assert CallOk(s.docs, k, s.calls[k]);
    var missing := Unseen(s.docs, s.calls[k].batch);
    GotoKeepsInv(s, k, if missing == [] then Done([], {}) else Writing(missing, Positions(|missing|), {}));
  }

  lemma RefuseKeepsInv(s: State, k: nat, i: nat)
    requires Inv(s) && k < |s.calls| && s.calls[k].phase.Writing?
    requires i in s.calls[k].phase.pending && i < |s.calls[k].phase.newDocs|
    requires Stored(s.docs, s.calls[k].phase.newDocs[i])
    ensures Inv(Step(s, WriteOne(k, i)))
  {
    var p := s.calls[k].phase;
    assert CallOk(s.docs, k, s.calls[k]);
    forall d | d in s.docs && d.call == k ensures DocOk(Step(s, WriteOne(k, i)).calls, d) { assert DocOk(s.calls, d); }
    GotoKeepsInv(s, k, p.(pending := p.pending - {i}, failed := p.failed + {i}));
  }

  lemma FinishKeepsInv(s: State, k: nat)
    requires Inv(s) && k < |s.calls| && s.calls[k].phase.Writing? && s.calls[k].phase.pending == {}
    ensures Inv(Step(s, Finish(k)))
  {
    var p := s.calls[k].phase;
    assert CallOk(s.docs, k, s.calls[k]);
    forall d | d in s.docs && d.call == k ensures DocOk(Step(s, Finish(k)).calls, d) { assert DocOk(s.calls, d); }
    GotoKeepsInv(s, k, Done(p.newDocs, p.failed));
  }

  lemma CrashKeepsInv(s: State, k: nat)
    requires Inv(s) && k < |s.calls|
    ensures Inv(Goto(s, k, Crashed))
  {
    forall d | d in s.docs && d.call == k ensures DocOk(Goto(s, k, Crashed).calls, d) { assert DocOk(s.calls, d); }
    GotoKeepsInv(s, k, Crashed);
  }

  lemma {:induction false} RunKeepsInv(s: State, actions: seq<Action>)
    requires Inv(s)
    ensures Inv(Run(s, actions))
    decreases |actions|
  {
    if actions != [] {
      StepKeepsInv(s, actions[0]);
      RunKeepsInv(Step(s, actions[0]), actions[1..]);
    }
  }

  // ---------------------------------------------------------------- what the reports mean

  lemma {:induction false} KeptFrom(newDocs: seq<SignalId>, failed: set<nat>, from: nat, id: SignalId) returns (i: nat)
    requires id in Kept(newDocs, failed, from)
    ensures from <= i < |newDocs| && i !in failed && newDocs[i] == id
    decreases |newDocs| - from
  {
    if from !in failed && newDocs[from] == id {
      i := from;
    } else {
      i := KeptFrom(newDocs, failed, from + 1, id);
    }
  }

  lemma {:induction false} KeptHas(newDocs: seq<SignalId>, failed: set<nat>, from: nat, i: nat)
    requires from <= i < |newDocs| && i !in failed
    ensures newDocs[i] in Kept(newDocs, failed, from)
    decreases |newDocs| - from
  {
    if from < i { KeptHas(newDocs, failed, from + 1, i); }
  }

  /** A report lists a position exactly when that position's document was written by the call. */
  lemma KeptIn(docs: seq<Doc>, k: nat, newDocs: seq<SignalId>, failed: set<nat>, from: nat, id: SignalId)
    requires WritesOk(docs, k, newDocs, {}, failed)
    ensures id in Kept(newDocs, failed, from) <==>
            exists i: nat :: from <= i < |newDocs| && newDocs[i] == id && Doc(id, k, i) in docs
  {
    if id in Kept(newDocs, failed, from) {
      var i := KeptFrom(newDocs, failed, from, id);
      assert Doc(newDocs[i], k, i) in docs;
    }
    if i: nat :| from <= i < |newDocs| && newDocs[i] == id && Doc(id, k, i) in docs { KeptHas(newDocs, failed, from, i); }
  }

  predicate Distinct(ids: seq<SignalId>) {
    forall i, j :: 0 <= i < j < |ids| ==> ids[i] != ids[j]
  }

  /** No report names an id twice, however often the batch did. */
  lemma {:induction false} KeptDistinct(docs: seq<Doc>, k: nat, newDocs: seq<SignalId>, failed: set<nat>, from: nat)
    requires WritesOk(docs, k, newDocs, {}, failed) && OncePerId(docs)
    ensures Distinct(Kept(newDocs, failed, from))
    decreases |newDocs| - from
  {
    if from < |newDocs| {
      KeptDistinct(docs, k, newDocs, failed, from + 1);
      if from !in failed {
        KeptIn(docs, k, newDocs, failed, from + 1, newDocs[from]);
        assert newDocs[from] !in Kept(newDocs, failed, from + 1) by {
          forall i: nat | from + 1 <= i < |newDocs| && newDocs[i] == newDocs[from] ensures Doc(newDocs[from], k, i) !in docs {
            OneDocPerId(docs, Doc(newDocs[from], k, from), Doc(newDocs[from], k, i));
          }
        }
      }
    }
  }

  lemma OneDocPerId(docs: seq<Doc>, d: Doc, e: Doc)
    requires OncePerId(docs) && d in docs && d.signalId == e.signalId && d != e
    ensures e !in docs
  {
  }

  lemma ReportedIsStored(s: State, k: nat, id: SignalId)
    requires Inv(s) && k < |s.calls|
    ensures id in Report(s.calls[k]) <==>
            s.calls[k].phase.Done? && exists d :: d in s.docs && d.signalId == id && d.call == k
  {
    if s.calls[k].phase.Done? {
      var p := s.calls[k].phase;
      assert CallOk(s.docs, k, s.calls[k]);
      KeptIn(s.docs, k, p.newDocs, p.failed, 0, id);
      if exists d :: d in s.docs && d.signalId == id && d.call == k {
        var d :| d in s.docs && d.signalId == id && d.call == k;
        assert DocOk(s.calls, d);
        assert Doc(id, k, d.position) in s.docs;
      }
    }
  }

  /**
   * Over every interleaving of repeated, overlapping and internally duplicated
   * batches: an id is stored at most once, a report never repeats an id, two calls
   * never report the same id, and every reported id is stored.
   */
  lemma ReportedAtMostOnce(actions: seq<Action>, k: nat, j: nat, id: SignalId)
    requires k < |Run(EMPTY, actions).calls| && j < |Run(EMPTY, actions).calls|
    ensures var s := Run(EMPTY, actions);
      && OncePerId(s.docs)
      && Distinct(Report(s.calls[k]))
      && (id in Report(s.calls[k]) ==> Stored(s.docs, id))
      && (id in Report(s.calls[k]) && id in Report(s.calls[j]) ==> k == j)
  {
    RunKeepsInv(EMPTY, actions);
    var s := Run(EMPTY, actions);
    ReportedIsStored(s, k, id);
    ReportedIsStored(s, j, id);
    if s.calls[k].phase.Done? {
      assert CallOk(s.docs, k, s.calls[k]);
      KeptDistinct(s.docs, k, s.calls[k].phase.newDocs, s.calls[k].phase.failed, 0);
    }
  }

  ghost predicate ReportedBySome(s: State, id: SignalId) {
    exists k :: 0 <= k < |s.calls| && id in Report(s.calls[k])
  }

  ghost predicate GivenToSome(s: State, id: SignalId) {
    exists k :: 0 <= k < |s.calls| && id in s.calls[k].batch
  }

  /** Stored but reported by nobody: exactly what a call that never returned has left behind. */
  lemma UnreportedIsFromUnfinished(actions: seq<Action>, id: SignalId)
    ensures var s := Run(EMPTY, actions);
      Stored(s.docs, id) <==>
        ReportedBySome(s, id) ||
        exists d :: d in s.docs && d.signalId == id && d.call < |s.calls| && !s.calls[d.call].phase.Done?
  {
    RunKeepsInv(EMPTY, actions);
    var s := Run(EMPTY, actions);
    if Stored(s.docs, id) {
      var i :| 0 <= i < |s.docs| && s.docs[i].signalId == id;
      assert DocOk(s.calls, s.docs[i]);
      ReportedIsStored(s, s.docs[i].call, id);
    }
    if ReportedBySome(s, id) {
      var k :| 0 <= k < |s.calls| && id in Report(s.calls[k]);
      ReportedIsStored(s, k, id);
    }
  }

  /** If every call returned normally, stored = reported by some call = given to some call. */
  lemma AllReturned(actions: seq<Action>, id: SignalId)
    requires forall k :: 0 <= k < |Run(EMPTY, actions).calls| ==> Run(EMPTY, actions).calls[k].phase.Done?
    ensures var s := Run(EMPTY, actions);
      && (Stored(s.docs, id) <==> ReportedBySome(s, id))
      && (Stored(s.docs, id) <==> GivenToSome(s, id))
  {
    RunKeepsInv(EMPTY, actions);
    var s := Run(EMPTY, actions);
    UnreportedIsFromUnfinished(actions, id);
    if Stored(s.docs, id) {
      var i :| 0 <= i < |s.docs| && s.docs[i].signalId == id;
      assert DocOk(s.calls, s.docs[i]);
    }
    if GivenToSome(s, id) {
      var k :| 0 <= k < |s.calls| && id in s.calls[k].batch;
      assert CallOk(s.docs, k, s.calls[k]);
      GivenIsStored(s, k, id);
    }
  }

  lemma GivenIsStored(s: State, k: nat, id: SignalId)
    requires Inv(s) && k < |s.calls| && s.calls[k].phase.Done? && id in s.calls[k].batch
    ensures Stored(s.docs, id)
  {
    assert CallOk(s.docs, k, s.calls[k]);
    var p := s.calls[k].phase;
    if id in p.newDocs {
      var i :| 0 <= i < |p.newDocs| && p.newDocs[i] == id;
      if i !in p.failed {
        var m :| 0 <= m < |s.docs| && s.docs[m] == Doc(id, k, i);
        assert s.docs[m].signalId == id;
      }
    }
  }

  // ---------------------------------------------------------------- one undisturbed call

  class SignalRepository {
    var stored: set<SignalId>

    /** The look-up and the filter. */
    method FilterNew(batch: seq<SignalId>) returns (newDocs: seq<SignalId>)
      ensures forall id :: id in newDocs <==> id in batch && id !in stored
    {
      newDocs := [];
      for i := 0 to |batch|
        invariant forall id :: id in newDocs <==> id in batch[..i] && id !in stored
      {
        assert batch[..i + 1] == batch[..i] + [batch[i]];
        if batch[i] !in stored { newDocs := newDocs + [batch[i]]; }
      }
      assert batch[..|batch|] == batch;
    }

    /** The unordered bulk insert; `failed` are the positions the unique index refused. */
    method InsertMany(newDocs: seq<SignalId>) returns (failed: set<nat>)
      modifies this
      ensures forall id :: id in stored <==> id in old(stored) || id in newDocs
      ensures forall k: nat :: k in failed <==> k < |newDocs| && (newDocs[k] in old(stored) || newDocs[k] in newDocs[..k])
    {
      failed := {};
      for i := 0 to |newDocs|
        invariant forall id :: id in stored <==> id in old(stored) || id in newDocs[..i]
        invariant forall k: nat :: k in failed <==> k < i && (newDocs[k] in old(stored) || newDocs[k] in newDocs[..k])
      {
        assert newDocs[..i + 1] == newDocs[..i] + [newDocs[i]];
        if newDocs[i] in stored { failed := failed + {i}; } else { stored := stored + {newDocs[i]}; }
      }
      assert newDocs[..|newDocs|] == newDocs;
    }

    /** The report: the ids at the positions that did not fail. */
    static method FilterFailed(newDocs: seq<SignalId>, failed: set<nat>) returns (inserted: seq<SignalId>)
      requires forall k: nat :: k in failed <==> k < |newDocs| && newDocs[k] in newDocs[..k]
      ensures forall id :: id in inserted <==> id in newDocs
      ensures Distinct(inserted)
    {
      inserted := [];
      for i := 0 to |newDocs|
        invariant forall id :: id in inserted <==> id in newDocs[..i]
        invariant Distinct(inserted)
      {
        assert newDocs[..i + 1] == newDocs[..i] + [newDocs[i]];
        if i !in failed { inserted := inserted + [newDocs[i]]; }
      }
      assert newDocs[..|newDocs|] == newDocs;
    }

    /**
     * What is new is stored and reported once; what was there is not touched. Duplicates
     * within the batch fail at their positions, and the report leaves those out.
     */
    method InsertManyIdempotent(batch: seq<SignalId>) returns (inserted: seq<SignalId>)
      modifies this
      ensures stored == old(stored) + set id | id in batch
      ensures forall id :: id in inserted <==> id in batch && id !in old(stored)
      ensures Distinct(inserted)
    {
      if |batch| == 0 { return []; }
      var newDocs := FilterNew(batch);
      if |newDocs| == 0 { return []; }
      assert forall k :: 0 <= k < |newDocs| ==> newDocs[k] in newDocs;
      var failed := InsertMany(newDocs);
      inserted := FilterFailed(newDocs, failed);
    }
  }
}
