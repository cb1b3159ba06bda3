/** The ingestion buffer as an object: four ring buffers and three drop tables, updated in place. */
module SignalBuffers {
  import opened Options
  import opened Severities
  import opened RingBuffers
  import opened BufferModel

  /** Four rings that share neither themselves nor their slots. */
  ghost predicate Apart(q: seq<RingBuffer<Signal>>) {
    && |q| == 4
    && (forall i, j :: 0 <= i < j < 4 ==> q[i] != q[j] && q[i].slots != q[j].slots)
  }

  class SignalBuffer {
    const config: Config
    const queues: seq<RingBuffer<Signal>>
    var shedding: bool
    var droppedBySeverity: seq<nat>
    var droppedByReason: seq<nat>
    var droppedBySeverityAndReason: seq<seq<nat>>
    ghost const Repr: set<object>

    ghost predicate Valid()
      reads this, Repr
    {
      && Apart(queues)
      && this in Repr
      && (forall i :: 0 <= i < 4 ==> queues[i] in Repr && queues[i].slots in Repr)
      && (forall i :: 0 <= i < 4 ==> queues[i].Valid() && queues[i].capacity == config.capacity)
      && Shaped(DropTable(droppedBySeverity, droppedByReason, droppedBySeverityAndReason))
    }

    ghost function LaneValues(): Lanes
      requires |queues| == 4
      reads queues
    {
      var l: seq<seq<Signal>> := [queues[0].Contents, queues[1].Contents, queues[2].Contents, queues[3].Contents];
      l
    }

    ghost function Drops(): Drops
      requires Shaped(DropTable(droppedBySeverity, droppedByReason, droppedBySeverityAndReason))
      reads this
    {
      DropTable(droppedBySeverity, droppedByReason, droppedBySeverityAndReason)
    }

    /** The buffer's value, on which BufferModel and BufferRuns reason. */
    ghost function View(): Buffer
      requires Valid()
      reads this, Repr
    {
      Buffer(LaneValues(), shedding, Drops())
    }

    constructor (config: Config)
      ensures Valid() && fresh(Repr) && this.config == config && View() == EMPTY
    {
      this.config := config;
      var q0 := new RingBuffer<Signal>(config.capacity);
      var q1 := new RingBuffer<Signal>(config.capacity);
      var q2 := new RingBuffer<Signal>(config.capacity);
      var q3 := new RingBuffer<Signal>(config.capacity);
      queues := [q0, q1, q2, q3];
      shedding := false;
      droppedBySeverity, droppedByReason := [0, 0, 0, 0], [0, 0, 0];
      droppedBySeverityAndReason := [[0, 0, 0], [0, 0, 0], [0, 0, 0], [0, 0, 0]];
      Repr := {this, q0, q1, q2, q3, q0.slots, q1.slots, q2.slots, q3.slots};
    }

    method TotalSize() returns (n: nat)
      requires Valid()
      ensures n == Total(LaneValues())
    {
      n := queues[0].count + queues[1].count + queues[2].count + queues[3].count;
    }

    method RecordDrop(r: nat, reason: DropReason)
      requires Valid() && r < 4
      modifies this
      ensures Valid() && View() == old(View()).(drops := BufferModel.RecordDrop(old(Drops()), r, reason))
    {
      var c := Column(reason);
      droppedBySeverity := droppedBySeverity[r := droppedBySeverity[r] + 1];
      droppedByReason := droppedByReason[c := droppedByReason[c] + 1];
      droppedBySeverityAndReason :=
        droppedBySeverityAndReason[r := droppedBySeverityAndReason[r][c := droppedBySeverityAndReason[r][c] + 1]];
    }

    method RecomputeState()
      requires Valid()
      modifies this`shedding
      ensures Valid() && View() == Recompute(config, old(View()))
    {
      var total := TotalSize();
      var fill := if config.capacity == 0 then 0.0 else total as real / config.capacity as real;
      if !shedding && fill >= config.high {
        shedding := true;
      } else if shedding && fill <= config.low {
        shedding := false;
      }
    }

    /** `queues[r].push(x)`, whose result the caller ignores. */
    method PushTo(r: nat, x: Signal)
      requires Valid() && r < 4
      modifies queues[r], queues[r].slots
      ensures Valid()
      ensures View() == if |old(LaneValues())[r]| < config.capacity
                        then old(View()).(lanes := old(LaneValues())[r := old(LaneValues())[r] + [x]]) else old(View())
    {
      ghost var before := LaneValues();
      assert forall q :: 0 <= q < 4 ==> before[q] == queues[q].Contents;
      var ok := queues[r].Push(x);
      assert forall q :: 0 <= q < 4 && q != r ==> queues[q].Contents == before[q];
      assert LaneValues() == if ok then before[r := before[r] + [x]] else before;
    }

    method PopOldestOf(r: nat) returns (item: Option<Signal>)
      requires Valid() && r < 4 && |LaneValues()[r]| > 0
      modifies queues[r], queues[r].slots
      ensures Valid() && item == Some(old(LaneValues())[r][0])
      ensures View() == old(View()).(lanes := old(LaneValues())[r := old(LaneValues())[r][1..]])
    {
      item := queues[r].PopOldest();
    }

    method EvictToMakeRoomForP0()
      requires Valid()
      modifies Repr
      ensures Valid() && View() == Evict(old(View()))
    {
      var r := 3;
      while queues[r].count == 0
        invariant r < 4 && Victim(LaneValues()) == Victim(LaneValues(), r)
        decreases r
      {
        if r == 0 { return; }
        r := r - 1;
      }
      var _ := PopOldestOf(r);
      RecordDrop(r, HardCapacity);
    }

    method Submit(x: Signal) returns (result: SubmitResult)
      requires Valid()
      modifies Repr
      ensures Valid() && (View(), result) == BufferModel.Submit(config, old(View()), x)
    {
      var r := Rank(x.severity);
      if shedding && x.severity != P0 {
        if queues[r].count >= Ceiling(config, r) {
          RecordDrop(r, ShedCeiling);
          return Rejected(ShedCeiling);
        }
      }
      var total := TotalSize();
      if total >= config.capacity {
        if x.severity == P0 {
          EvictToMakeRoomForP0();
        } else {
          RecordDrop(r, HardCapacity);
          return Rejected(HardCapacity);
        }
      }
      PushTo(r, x);
      RecomputeState();
      return Accepted;
    }

    method PopBatchFrom(r: nat, room: int) returns (batch: seq<Signal>)
      requires Valid() && r < 4
      modifies queues[r], queues[r].slots
      ensures Valid()
      ensures var n := Take(old(LaneValues())[r], room);
        && batch == old(LaneValues())[r][..n]
        && View() == old(View()).(lanes := old(LaneValues())[r := old(LaneValues())[r][n..]])
    {
      batch := queues[r].PopBatch(room);
      assert batch + queues[r].Contents == old(LaneValues())[r];
    }

    /** One turn of the priority loop. */
    method PopInto(r: nat, maxItems: int, batch: seq<Signal>) returns (longer: seq<Signal>)
      requires Valid() && r < 4 && |batch| < maxItems
      modifies queues[r], queues[r].slots
      ensures Valid() && View() == old(View()).(lanes := LaneValues())
      ensures Prepend(batch, PopFrom(old(LaneValues()), r, maxItems - |batch|))
           == Prepend(longer, PopFrom(LaneValues(), r + 1, maxItems - |longer|))
    {
      ghost var lanes, n := LaneValues(), Take(LaneValues()[r], maxItems - |batch|);
      PopFromUnfold(lanes, r, maxItems - |batch|, batch);
      var part := PopBatchFrom(r, maxItems - |batch|);
      assert part == lanes[r][..n] && |part| == n;
      assert LaneValues() == lanes[r := lanes[r][n..]];
      longer := batch + part;
    }

    method PopPriorityBatch(maxItems: int) returns (batch: seq<Signal>)
      requires Valid()
      modifies Repr
      ensures Valid()
      ensures PopAll(old(LaneValues()), maxItems) == (batch, LaneValues())
      ensures View() == old(View()).(lanes := LaneValues())
    {
      batch := [];
      var r := 0;
      PopAllStart(LaneValues(), maxItems);
      ghost var target := PopAll(LaneValues(), maxItems);
      while r < 4
        invariant r <= 4 && Valid()
        invariant View() == old(View()).(lanes := LaneValues())
        invariant target == Prepend(batch, PopFrom(LaneValues(), r, maxItems - |batch|))
      {
        if |batch| >= maxItems { break; }
        batch := PopInto(r, maxItems, batch);
        r := r + 1;
      }
      PopFromStops(LaneValues(), r, maxItems - |batch|, batch);
    }

    /** `drainToSink` up to its await: the batch now belongs to the sink. */
    method BeginDrain(maxItems: int) returns (batch: seq<Signal>)
      requires Valid()
      modifies Repr
      ensures Valid() && (batch, View()) == Pop(config, old(View()), maxItems)
    {
      batch := PopPriorityBatch(maxItems);
      if batch == [] {
        BatchEmptyKeepsLanes(old(LaneValues()), maxItems);
        return;
      }
      RecomputeState();
    }

    /** The `catch` of `drainToSink`: every signal of the batch is counted as a sink failure. */
    method FailBatch(batch: seq<Signal>)
      requires Valid()
      modifies this
      ensures Valid() && View() == old(View()).(drops := RecordFailed(old(Drops()), batch))
    {
      for i := 0 to |batch|
        invariant Valid() && View() == old(View()).(drops := Drops())
        invariant RecordFailed(Drops(), batch[i..]) == RecordFailed(old(Drops()), batch)
      {
        assert batch[i..][1..] == batch[i + 1..];
        RecordDrop(Rank(batch[i].severity), SinkFailure);
      }
    }

    /**
     * `drainToSink` with nothing submitted meanwhile. `sinkOk` is what the sink
     * answers; an empty pop never asks it.
     */
    method DrainToSink(maxItems: int, sinkOk: bool) returns (drained: nat, failed: nat)
      requires Valid()
      modifies Repr
      ensures Valid()
      ensures drained + failed == BatchSize(old(LaneValues()), maxItems)
      ensures if sinkOk then failed == 0 else drained == 0
      ensures Total(LaneValues()) == Total(old(LaneValues())) - BatchSize(old(LaneValues()), maxItems)
      ensures var (batch, b) := Pop(config, old(View()), maxItems);
              View() == if sinkOk then b else b.(drops := RecordFailed(old(Drops()), batch))
    {
      PopSizes(config, View(), maxItems);
      var batch := BeginDrain(maxItems);
      if |batch| == 0 { return 0, 0; }
      if sinkOk { return |batch|, 0; }
      FailBatch(batch);
      return 0, |batch|;
    }

    /** One turn of the shutdown loop: a full batch or all that was left. */
    method DrainOnce(batchSize: int, ok: bool) returns (drained: nat, lost: nat, left: nat)
      requires Valid()
      modifies Repr
      ensures Valid() && left == Total(LaneValues())
      ensures drained + lost + left == Total(old(LaneValues()))
      ensures batchSize > 0 ==> left == 0 || drained + lost == batchSize
      ensures if ok then lost == 0 else drained == 0
      ensures SinkFailures(Drops()) == SinkFailures(old(Drops())) + lost
    {
      var (batch, b) := Pop(config, View(), batchSize);
      FailuresCounted(Drops(), batch);
      PopSizes(config, View(), batchSize);
      drained, lost := DrainToSink(batchSize, ok);
      left := TotalSize();
    }

    /**
     * `drainAll` with nothing submitted meanwhile: `inTime` deadline checks pass and
     * the sink answers `sinkOk`. What was there is split into sent, failed and remaining,
     * and unless the deadline fires first everything goes.
     */
    method DrainAll(batchSize: int, inTime: nat, sinkOk: seq<bool>)
      returns (processed: nat, succeeded: nat, failed: nat, remaining: nat)
      requires Valid() && |sinkOk| == inTime
      modifies Repr
      ensures Valid() && remaining == Total(LaneValues())
      ensures processed == succeeded + failed && processed + remaining == Total(old(LaneValues()))
      ensures batchSize > 0 ==> remaining == 0 || processed == inTime * batchSize
      ensures SinkFailures(Drops()) == SinkFailures(old(Drops())) + failed
      ensures AllAre(sinkOk, true) ==> failed == 0
      ensures AllAre(sinkOk, false) ==> succeeded == 0
    {
      succeeded, failed := 0, 0;
      var tick := 0;
      var total := TotalSize();
      ghost var b := View();
      ghost var start, before := total, SinkFailures(b.drops);
      while total > 0 && tick < inTime
        invariant Valid() && tick <= inTime && b == View() && total == Total(b.lanes)
        invariant Tallies(start, total, succeeded + failed, tick, batchSize)
        invariant Settled(before, SinkFailures(b.drops), sinkOk, succeeded, failed)
        decreases inTime - tick
      {
        var drained, lost, left := DrainOnce(batchSize, sinkOk[tick]);
        OneMoreTurn(start, total, succeeded + failed, tick, batchSize, drained + lost, left);
        OneMoreSettled(before, SinkFailures(b.drops), sinkOk, succeeded, failed, tick, drained, lost);
        b := View();
        succeeded, failed, total := succeeded + drained, failed + lost, left;
        tick := tick + 1;
      }
      QuotaIsProduct(tick, batchSize);
      return succeeded + failed, succeeded, failed, total;
    }
  }

  predicate AllAre(s: seq<bool>, v: bool) {
    forall i :: 0 <= i < |s| ==> s[i] == v
  }

  /** What the sink failed to take is counted, and all of it if it always fails, none if it never does. */
  predicate Settled(before: nat, now: nat, sinkOk: seq<bool>, succeeded: nat, failed: nat) {
    && now == before + failed
    && (AllAre(sinkOk, true) ==> failed == 0)
    && (AllAre(sinkOk, false) ==> succeeded == 0)
  }

  lemma OneMoreSettled(before: nat, now: nat, sinkOk: seq<bool>, succeeded: nat, failed: nat, tick: nat, drained: nat, lost: nat)
    requires Settled(before, now, sinkOk, succeeded, failed) && tick < |sinkOk|
    requires if sinkOk[tick] then lost == 0 else drained == 0
    ensures Settled(before, now + lost, sinkOk, succeeded + drained, failed + lost)
  {
  }

  /** Signals counted as dropped because the sink failed. */
  function SinkFailures(t: Drops): nat { t.byReason[Column(SinkFailure)] }

  /** Every signal of a failed batch is counted, and for no other reason. */
  lemma {:induction false} FailuresCounted(t: Drops, batch: seq<Signal>)
    ensures SinkFailures(RecordFailed(t, batch)) == SinkFailures(t) + |batch|
    ensures forall c :: 0 <= c < 2 ==> RecordFailed(t, batch).byReason[c] == t.byReason[c]
    decreases |batch|
  {
    if batch != [] { FailuresCounted(RecordDrop(t, Rank(batch[0].severity), SinkFailure), batch[1..]); }
  }

  /** What `k` full batches of `n` come to. */
  function Quota(k: nat, n: int): int {
    if k == 0 then 0 else Quota(k - 1, n) + n
  }

  /** After `turns` turns: nothing has got lost, and every turn was full unless the buffer is empty. */
  predicate Tallies(start: nat, total: nat, sent: nat, turns: nat, batchSize: int) {
    && sent + total == start
    && (batchSize > 0 ==> total == 0 || sent == Quota(turns, batchSize))
  }

  lemma OneMoreTurn(start: nat, total: nat, sent: nat, turns: nat, batchSize: int, taken: nat, left: nat)
    requires Tallies(start, total, sent, turns, batchSize) && total > 0
    requires taken + left == total && (batchSize > 0 ==> left == 0 || taken == batchSize)
    ensures Tallies(start, left, sent + taken, turns + 1, batchSize)
  {
  }

  lemma {:induction false} QuotaIsProduct(k: nat, n: int)
    ensures Quota(k, n) == k * n
  {
    if k > 0 {
      QuotaIsProduct(k - 1, n);
      assert k * n == (k - 1) * n + n;
    }
  }

  lemma PopSizes(c: Config, b: Buffer, maxItems: int)
    ensures |Pop(c, b, maxItems).0| == BatchSize(b.lanes, maxItems)
    ensures Total(Pop(c, b, maxItems).1.lanes) == Total(b.lanes) - BatchSize(b.lanes, maxItems)
  {
    PopIsPriorityPrefix(b.lanes, maxItems);
  }

  function PopAll(l: Lanes, maxItems: int): (seq<Signal>, Lanes) {
    PopFrom(l, 0, maxItems)
  }

  function Prepend(batch: seq<Signal>, rest: (seq<Signal>, Lanes)): (seq<Signal>, Lanes) {
    (batch + rest.0, rest.1)
  }

  lemma PopAllStart(l: Lanes, maxItems: int)
    ensures PopAll(l, maxItems) == Prepend([], PopFrom(l, 0, maxItems))
  {
    assert [] + PopFrom(l, 0, maxItems).0 == PopFrom(l, 0, maxItems).0;
  }

  lemma PopFromUnfold(l: Lanes, r: nat, room: int, batch: seq<Signal>)
    requires r < 4 && room > 0
    ensures var n := Take(l[r], room);
      Prepend(batch, PopFrom(l, r, room)) ==
      Prepend(batch + l[r][..n], PopFrom(l[r := l[r][n..]], r + 1, room - n))
  {
    var n := Take(l[r], room);
    var rest := PopFrom(l[r := l[r][n..]], r + 1, room - n).0;
    assert batch + (l[r][..n] + rest) == (batch + l[r][..n]) + rest;
  }

  lemma PopFromStops(l: Lanes, r: nat, room: int, batch: seq<Signal>)
    requires r == 4 || (r < 4 && room <= 0)
    ensures Prepend(batch, PopFrom(l, r, room)) == (batch, l)
  {
    assert batch + [] == batch;
  }

  lemma BatchEmptyKeepsLanes(l: Lanes, maxItems: int)
    requires PopFrom(l, 0, maxItems).0 == []
    ensures PopFrom(l, 0, maxItems).1 == l
  {
    PopIsPriorityPrefix(l, maxItems);
  }
}
