/**
 * Whole runs of the ingestion buffer. Popping a batch and learning what the sink
 * did with it are separate actions, so submits and further drains may fall
 * between them.
 */
module BufferRuns {
  import opened Options
  import opened Severities
  import opened BufferModel

  datatype Action =
    | SubmitSignal(x: Signal)
    | BeginDrain(maxItems: int)
    | Settle(batch: nat, delivered: bool)

  /** What has happened so far, per severity rank. */
  datatype History = History(submitted: seq<nat>, accepted: seq<seq<Signal>>, popped: seq<seq<Signal>>, delivered: seq<Signal>)

  predicate FourLanes(h: History) {
    |h.submitted| == 4 && |h.accepted| == 4 && |h.popped| == 4
  }

  type Log = h: History | FourLanes(h) witness NO_HISTORY

  const NO_HISTORY := History([0, 0, 0, 0], [[], [], [], []], [[], [], [], []], [])

  datatype World = World(buf: Buffer, inFlight: seq<seq<Signal>>, log: Log)

  const START := World(EMPTY, [], NO_HISTORY)

  function Without<T>(s: seq<T>, i: nat): seq<T>
    requires i < |s|
  {
    s[..i] + s[i + 1..]
  }

  /** The lanes after `Submit` has made room for `x`, and who left. */
  function MadeRoom(c: Config, b: Buffer, x: Signal): Option<nat> {
    if x.severity == P0 && Total(b.lanes) >= c.capacity then Victim(b.lanes) else None
  }

  function LogSubmit(c: Config, w: World, x: Signal): Log {
    var r := Rank(x.severity);
    var victim := MadeRoom(c, w.buf, x);
    var h := w.log;
    h.(submitted := h.submitted[r := h.submitted[r] + 1],
       accepted := if Submit(c, w.buf, x).1.Accepted? then h.accepted[r := h.accepted[r] + [x]] else h.accepted,
       popped := if victim.Some?
                 then h.popped[victim.value := h.popped[victim.value] + [w.buf.lanes[victim.value][0]]]
                 else h.popped)
  }

  function LogDrain(w: World, n: seq<nat>): Log
    requires |n| == 4 && forall r :: 0 <= r < 4 ==> n[r] <= |w.buf.lanes[r]|
  {
    var p, l := w.log.popped, w.buf.lanes;
    w.log.(popped := [p[0] + l[0][..n[0]], p[1] + l[1][..n[1]], p[2] + l[2][..n[2]], p[3] + l[3][..n[3]]])
  }

  function Step(c: Config, w: World, a: Action): World {
    match a
    case SubmitSignal(x) => World(Submit(c, w.buf, x).0, w.inFlight, LogSubmit(c, w, x))
    case BeginDrain(maxItems) =>
      var (batch, b) := Pop(c, w.buf, maxItems);
      if batch == [] then w
      else World(b, w.inFlight + [batch], LogDrain(w, Taken(w.buf.lanes, maxItems)))
    case Settle(i, delivered) =>
      if i >= |w.inFlight| then w
      else if delivered then
        World(w.buf, Without(w.inFlight, i), w.log.(delivered := w.log.delivered + w.inFlight[i]))
      else
        World(w.buf.(drops := RecordFailed(w.buf.drops, w.inFlight[i])), Without(w.inFlight, i), w.log)
  }

  function Run(c: Config, w: World, actions: seq<Action>): World
    decreases |actions|
  {
    if actions == [] then w else Run(c, Step(c, w, actions[0]), actions[1..])
  }

  // ---------------------------------------------------------------- counting

  function Count(s: seq<Signal>, r: nat): nat {
    if s == [] then 0 else (if Rank(s[0].severity) == r then 1 else 0) + Count(s[1..], r)
  }

  function CountAll(batches: seq<seq<Signal>>, r: nat): nat {
    if batches == [] then 0 else Count(batches[0], r) + CountAll(batches[1..], r)
  }

  lemma {:induction false} CountConcat(s: seq<Signal>, t: seq<Signal>, r: nat)
    ensures Count(s + t, r) == Count(s, r) + Count(t, r)
  {
    if s == [] {
      assert s + t == t;
    } else {
      assert (s + t)[1..] == s[1..] + t;
      CountConcat(s[1..], t, r);
    }
  }

  lemma {:induction false} CountAllConcat(s: seq<seq<Signal>>, t: seq<seq<Signal>>, r: nat)
    ensures CountAll(s + t, r) == CountAll(s, r) + CountAll(t, r)
  {
    if s == [] {
      assert s + t == t;
    } else {
      assert (s + t)[1..] == s[1..] + t;
      CountAllConcat(s[1..], t, r);
    }
  }

  lemma CountAllWithout(s: seq<seq<Signal>>, i: nat, r: nat)
    requires i < |s|
    ensures CountAll(s, r) == CountAll(Without(s, i), r) + Count(s[i], r)
  {
    assert s == s[..i] + ([s[i]] + s[i + 1..]);
    CountAllConcat(s[..i], [s[i]] + s[i + 1..], r);
    CountAllConcat([s[i]], s[i + 1..], r);
    CountAllConcat(s[..i], s[i + 1..], r);
    assert CountAll([s[i]], r) == Count(s[i], r) + CountAll([], r);
  }

  predicate Own(s: seq<Signal>, r: nat) {
    forall i :: 0 <= i < |s| ==> Rank(s[i].severity) == r
  }

  lemma {:induction false} CountOwn(s: seq<Signal>, q: nat, r: nat)
    requires Own(s, q)
    ensures Count(s, r) == if r == q then |s| else 0
  {
    if s != [] { CountOwn(s[1..], q, r); }
  }

  // ---------------------------------------------------------------- the invariants

  predicate LanesOwn(l: Lanes) {
    forall r :: 0 <= r < 4 ==> Own(l[r], r)
  }

  /** Everything ever popped from a lane, then its contents, is the accepted sequence in order. */
  ghost predicate Fifo(w: World) {
    forall r :: 0 <= r < 4 ==> w.log.popped[r] + w.buf.lanes[r] == w.log.accepted[r]
  }

  function Row(t: Drops, r: nat): nat
    requires r < 4
  {
    t.cross[r][0] + t.cross[r][1] + t.cross[r][2]
  }

  function ColumnSum(t: Drops, k: nat): nat
    requires k < 3
  {
    t.cross[0][k] + t.cross[1][k] + t.cross[2][k] + t.cross[3][k]
  }

  /** The one-way tables are the margins of the cross table. */
  ghost predicate Margins(t: Drops) {
    && (forall r :: 0 <= r < 4 ==> t.bySeverity[r] == Row(t, r))
    && (forall k :: 0 <= k < 3 ==> t.byReason[k] == ColumnSum(t, k))
  }

  function Accounted(w: World, r: nat): nat
    requires r < 4
  {
    |w.buf.lanes[r]| + CountAll(w.inFlight, r) + Count(w.log.delivered, r) + Row(w.buf.drops, r)
  }

  /** Submitted signals of rank `r` that are neither stored nor counted as dropped. */
  function Lost(c: Config, w: World, r: nat): nat
    requires r < 4
  {
    if c.capacity == 0 && r == 0 then w.log.submitted[0] else 0
  }

  ghost predicate Balanced(c: Config, w: World) {
    forall r :: 0 <= r < 4 ==> w.log.submitted[r] == Accounted(w, r) + Lost(c, w, r)
  }

  ghost predicate Watermarks(c: Config, b: Buffer) {
    && (!b.shedding ==> Fill(c, b.lanes) < c.high)
    && (b.shedding ==> Fill(c, b.lanes) > c.low)
  }

  ghost predicate Inv(c: Config, w: World) {
    && Total(w.buf.lanes) <= c.capacity
    && LanesOwn(w.buf.lanes)
    && Margins(w.buf.drops)
    && Balanced(c, w)
    && (c.capacity > 0 ==> Fifo(w))
    && w.buf.drops.cross[0][Column(ShedCeiling)] == 0
  }

  lemma DropMargins(t: Drops, r: nat, reason: DropReason)
    requires Margins(t) && r < 4
    ensures Margins(RecordDrop(t, r, reason))
    ensures forall q :: 0 <= q < 4 ==> Row(RecordDrop(t, r, reason), q) == Row(t, q) + if q == r then 1 else 0
    ensures RecordDrop(t, r, reason).cross[0][0] == t.cross[0][0] + if r == 0 && reason.ShedCeiling? then 1 else 0
  {
  }

  lemma {:induction false} FailedMargins(t: Drops, batch: seq<Signal>)
    requires Margins(t)
    ensures Margins(RecordFailed(t, batch))
    ensures forall q :: 0 <= q < 4 ==> Row(RecordFailed(t, batch), q) == Row(t, q) + Count(batch, q)
    ensures RecordFailed(t, batch).cross[0][0] == t.cross[0][0]
    decreases |batch|
  {
    if batch != [] {
      DropMargins(t, Rank(batch[0].severity), SinkFailure);
      FailedMargins(RecordDrop(t, Rank(batch[0].severity), SinkFailure), batch[1..]);
    }
  }

  /** Taking the head off a lane, putting one at its back, or both, on the accepted sequence. */
  lemma LaneMoves(p: seq<Signal>, l: seq<Signal>, x: Signal)
    ensures p + (l + [x]) == p + l + [x]
    ensures l != [] ==> p + [l[0]] + l[1..] == p + l
    ensures l != [] ==> p + [l[0]] + (l[1..] + [x]) == p + l + [x]
  {
    if l != [] { assert l == [l[0]] + l[1..]; }
  }

  lemma EvictingKeepsFifo(c: Config, w: World, x: Signal)
    requires Inv(c, w) && c.capacity > 0 && x.severity == P0 && Total(w.buf.lanes) == c.capacity
    ensures Fifo(Step(c, w, SubmitSignal(x)))
  {
    AcceptanceAppends(c, w.buf, x);
    var l, w' := w.buf.lanes, Step(c, w, SubmitSignal(x));
    var v := Victim(l).value;
    assert w'.log.accepted == w.log.accepted[0 := w.log.accepted[0] + [x]];
    assert w'.log.popped == w.log.popped[v := w.log.popped[v] + [l[v][0]]];
    forall r | 0 <= r < 4 ensures w'.log.popped[r] + w'.buf.lanes[r] == w'.log.accepted[r] {
      assert w.log.popped[r] + l[r] == w.log.accepted[r];
      LaneMoves(w.log.popped[r], l[r], x);
    }
  }

  /** Lanes, drops and history of an evicting submit. */
  lemma EvictingSubmit(c: Config, w: World, x: Signal)
    requires Inv(c, w) && c.capacity > 0 && x.severity == P0 && Total(w.buf.lanes) == c.capacity
    ensures Inv(c, Step(c, w, SubmitSignal(x)))
  {
    AcceptanceAppends(c, w.buf, x);
    EvictingKeepsFifo(c, w, x);
    DropMargins(w.buf.drops, Victim(w.buf.lanes).value, HardCapacity);
  }

  lemma PlainSubmit(c: Config, w: World, x: Signal)
    requires Inv(c, w) && Submit(c, w.buf, x).1.Accepted? && Total(w.buf.lanes) < c.capacity
    ensures Inv(c, Step(c, w, SubmitSignal(x)))
  {
    AcceptanceAppends(c, w.buf, x);
    var r, l, w' := Rank(x.severity), w.buf.lanes, Step(c, w, SubmitSignal(x));
    assert w.log.popped[r] + (l[r] + [x]) == w.log.popped[r] + l[r] + [x];
  }

  lemma SubmitKeepsInv(c: Config, w: World, x: Signal)
    requires Inv(c, w)
    ensures Inv(c, Step(c, w, SubmitSignal(x)))
  {
    if Submit(c, w.buf, x).1.Rejected? {
      RejectionOnlyCounts(c, w.buf, x);
      DropMargins(w.buf.drops, Rank(x.severity), Submit(c, w.buf, x).1.reason);
    } else if Total(w.buf.lanes) < c.capacity {
      PlainSubmit(c, w, x);
    } else if c.capacity > 0 {
      EvictingSubmit(c, w, x);
    }
  }

  lemma CountPrefixes(l: Lanes, n: seq<nat>, r: nat)
    requires |n| == 4 && (forall q :: 0 <= q < 4 ==> n[q] <= |l[q]|) && LanesOwn(l) && r < 4
    ensures Count(Prefixes(l, n), r) == n[r]
  {
    var a, b, d, e := l[0][..n[0]], l[1][..n[1]], l[2][..n[2]], l[3][..n[3]];
    CountConcat(a, b + (d + e), r);
    CountConcat(b, d + e, r);
    CountConcat(d, e, r);
    CountOwn(a, 0, r);
    CountOwn(b, 1, r);
    CountOwn(d, 2, r);
    CountOwn(e, 3, r);
  }

  /** A drain in terms of prefixes and suffixes of the lanes. */
  lemma DrainStep(c: Config, w: World, maxItems: int)
    ensures var l, n := w.buf.lanes, Taken(w.buf.lanes, maxItems);
      Step(c, w, BeginDrain(maxItems)) ==
      if Prefixes(l, n) == [] then w
      else World(Recompute(c, w.buf.(lanes := Suffixes(l, n))), w.inFlight + [Prefixes(l, n)], LogDrain(w, n))
  {
    PopIsPriorityPrefix(w.buf.lanes, maxItems);
  }

  lemma CountAllPush(s: seq<seq<Signal>>, batch: seq<Signal>, r: nat)
    ensures CountAll(s + [batch], r) == CountAll(s, r) + Count(batch, r)
  {
    CountAllConcat(s, [batch], r);
    assert CountAll([batch], r) == Count(batch, r) + CountAll([], r);
  }

  lemma SuffixAt(l: Lanes, n: seq<nat>, r: nat)
    requires |n| == 4 && (forall q :: 0 <= q < 4 ==> n[q] <= |l[q]|) && r < 4
    ensures Suffixes(l, n)[r] == l[r][n[r]..]
  {
  }

  lemma PoppedAt(w: World, n: seq<nat>, r: nat)
    requires |n| == 4 && (forall q :: 0 <= q < 4 ==> n[q] <= |w.buf.lanes[q]|) && r < 4
    ensures LogDrain(w, n).popped[r] == w.log.popped[r] + w.buf.lanes[r][..n[r]]
    ensures LogDrain(w, n).delivered == w.log.delivered
  {
  }

  lemma CutJoins(p: seq<Signal>, l: seq<Signal>, n: nat)
    requires n <= |l|
    ensures p + l[..n] + l[n..] == p + l
  {
  }

  /** The accounts of one severity balance across giving up the prefixes `n`. */
  lemma DrainBalances(c: Config, w: World, b: Buffer, n: seq<nat>, r: nat)
    requires |n| == 4 && (forall q :: 0 <= q < 4 ==> n[q] <= |w.buf.lanes[q]|) && LanesOwn(w.buf.lanes) && r < 4
    requires b.lanes == Suffixes(w.buf.lanes, n) && b.drops == w.buf.drops
    ensures var w' := World(b, w.inFlight + [Prefixes(w.buf.lanes, n)], LogDrain(w, n));
      && Accounted(w', r) == Accounted(w, r)
      && w'.log.popped[r] + w'.buf.lanes[r] == w.log.popped[r] + w.buf.lanes[r]
      && Own(w'.buf.lanes[r], r)
  {
    var l := w.buf.lanes;
    CountPrefixes(l, n, r);
    CountAllPush(w.inFlight, Prefixes(l, n), r);
    SuffixAt(l, n, r);
    PoppedAt(w, n, r);
    CutJoins(w.log.popped[r], l[r], n[r]);
    assert Own(l[r], r);
  }

  lemma DrainKeepsInv(c: Config, w: World, maxItems: int)
    requires Inv(c, w)
    ensures Inv(c, Step(c, w, BeginDrain(maxItems)))
  {
    var l, n := w.buf.lanes, Taken(w.buf.lanes, maxItems);
    DrainStep(c, w, maxItems);
    if Prefixes(l, n) != [] {
      var b := Recompute(c, w.buf.(lanes := Suffixes(l, n)));
      forall r | 0 <= r < 4
        ensures Accounted(World(b, w.inFlight + [Prefixes(l, n)], LogDrain(w, n)), r) == Accounted(w, r)
        ensures LogDrain(w, n).popped[r] + b.lanes[r] == w.log.popped[r] + l[r]
        ensures Own(b.lanes[r], r)
      {
        DrainBalances(c, w, b, n, r);
      }
    }
  }

  lemma SettleKeepsInv(c: Config, w: World, i: nat, delivered: bool)
    requires Inv(c, w)
    ensures Inv(c, Step(c, w, Settle(i, delivered)))
  {
    if i < |w.inFlight| {
      var w' := Step(c, w, Settle(i, delivered));
      FailedMargins(w.buf.drops, w.inFlight[i]);
      forall r | 0 <= r < 4 ensures w'.log.submitted[r] == Accounted(w', r) + Lost(c, w', r) {
        CountAllWithout(w.inFlight, i, r);
        CountConcat(w.log.delivered, w.inFlight[i], r);
      }
    }
  }

  lemma StepKeepsInv(c: Config, w: World, a: Action)
    requires Inv(c, w)
    ensures Inv(c, Step(c, w, a))
  {
    match a
    case SubmitSignal(x) => SubmitKeepsInv(c, w, x);
    case BeginDrain(m) => DrainKeepsInv(c, w, m);
    case Settle(i, ok) => SettleKeepsInv(c, w, i, ok);
  }

  /**
   * Over every run, with submits and drains interleaved between a batch's pop and
   * its settlement: the total stays within capacity, lanes are FIFO, the one-way
   * drop tables are the margins of the cross table, P0 is never shed, and per
   * severity every submitted signal is accounted for.
   */
  lemma {:induction false} RunKeepsInv(c: Config, w: World, actions: seq<Action>)
    requires Inv(c, w)
    ensures Inv(c, Run(c, w, actions))
    decreases |actions|
  {
    if actions != [] {
      StepKeepsInv(c, w, actions[0]);
      RunKeepsInv(c, Step(c, w, actions[0]), actions[1..]);
    }
  }

  /**
   * The same for every run from an empty buffer with capacity, with the promises
   * spelled out. What was ever popped from a lane, drained or evicted, followed by what
   * the lane holds is what the lane accepted, in order.
   */
  lemma ReachableBuffer(c: Config, actions: seq<Action>, r: nat, k: nat)
    requires c.capacity > 0 && r < 4 && k < 3
    ensures var w := Run(c, START, actions);
      && Total(w.buf.lanes) <= c.capacity
      && w.log.popped[r] + w.buf.lanes[r] == w.log.accepted[r]
      && (forall i :: 0 <= i < |w.buf.lanes[r]| ==> Rank(w.buf.lanes[r][i].severity) == r)
      && w.buf.drops.bySeverity[r] == w.buf.drops.cross[r][0] + w.buf.drops.cross[r][1] + w.buf.drops.cross[r][2]
      && w.buf.drops.byReason[k] ==
           w.buf.drops.cross[0][k] + w.buf.drops.cross[1][k] + w.buf.drops.cross[2][k] + w.buf.drops.cross[3][k]
  {
    StartIsSound(c);
    RunKeepsInv(c, START, actions);
    assert Own(Run(c, START, actions).buf.lanes[r], r);
  }

  /**
   * Submitted = buffered + in flight + delivered + dropped for each severity, exactly
   * unless the buffer has no capacity at all and it is P0 that was submitted: then a
   * P0 is reported accepted although the ignored push refused it.
   */
  lemma Conservation(c: Config, actions: seq<Action>, r: nat)
    requires r < 4
    ensures var w := Run(c, START, actions);
      w.log.submitted[r] == Accounted(w, r) <==> (c.capacity > 0 || r > 0 || w.log.submitted[0] == 0)
  {
    StartIsSound(c);
    RunKeepsInv(c, START, actions);
  }

  // ---------------------------------------------------------------- hysteresis and ceilings

  lemma StepKeepsWatermarks(c: Config, w: World, a: Action)
    requires c.low < c.high && Watermarks(c, w.buf)
    ensures Watermarks(c, Step(c, w, a).buf)
  {
  }

  /** Between the marks the state sticks: only a step that ends outside them can flip it. */
  lemma Hysteresis(c: Config, w: World, a: Action)
    requires c.low < Fill(c, Step(c, w, a).buf.lanes) < c.high
    ensures Step(c, w, a).buf.shedding == w.buf.shedding
  {
  }

  lemma {:induction false} RunKeepsWatermarks(c: Config, w: World, actions: seq<Action>)
    requires c.low < c.high && Watermarks(c, w.buf)
    ensures Watermarks(c, Run(c, w, actions).buf)
    decreases |actions|
  {
    if actions != [] {
      StepKeepsWatermarks(c, w, actions[0]);
      RunKeepsWatermarks(c, Step(c, w, actions[0]), actions[1..]);
    }
  }

  /** Where a buffer with capacity stands against a mark, without a division. */
  lemma FillAgainst(c: Config, l: Lanes, mark: real)
    requires c.capacity > 0
    ensures Fill(c, l) >= mark <==> Held(l) as real >= mark * c.capacity as real
    ensures Fill(c, l) > mark <==> Held(l) as real > mark * c.capacity as real
  {
    var k := c.capacity as real;
    assert Fill(c, l) * k == Held(l) as real;
    if Fill(c, l) >= mark { assert Fill(c, l) * k >= mark * k; } else { assert Fill(c, l) * k < mark * k; }
    if Fill(c, l) > mark { assert Fill(c, l) * k > mark * k; } else { assert Fill(c, l) * k <= mark * k; }
  }

  /** How many items the lanes hold. */
  function Held(l: Lanes): nat { |l[0] + l[1] + l[2] + l[3]| }

  lemma MarksDecide(c: Config, w: World, a: Action)
    requires c.low < c.high && Watermarks(c, w.buf)
    ensures var b := Step(c, w, a).buf;
      b.shedding <==> Fill(c, b.lanes) >= c.high || (w.buf.shedding && Fill(c, b.lanes) > c.low)
  {
    StepKeepsWatermarks(c, w, a);
  }

  predicate ShedsBetween(c: Config, was: bool, l: Lanes) {
    || Held(l) as real >= c.high * c.capacity as real
    || (was && Held(l) as real > c.low * c.capacity as real)
  }

  lemma FillDecides(c: Config, was: bool, l: Lanes)
    requires c.capacity > 0
    ensures ShedsBetween(c, was, l) <==> Fill(c, l) >= c.high || (was && Fill(c, l) > c.low)
  {
    FillAgainst(c, l, c.high);
    FillAgainst(c, l, c.low);
  }

  /**
   * On every run of a deployed configuration, after every action: the buffer sheds exactly
   * if it is filled to the high mark, or was shedding and is still filled above the low one.
   */
  lemma SheddingExactly(c: Config, actions: seq<Action>, a: Action)
    requires Deployed(c)
    ensures var w := Run(c, START, actions);
            var b := Step(c, w, a).buf;
      b.shedding <==> ShedsBetween(c, w.buf.shedding, b.lanes)
  {
    var w := Run(c, START, actions);
    StartIsSound(c);
    RunKeepsWatermarks(c, START, actions);
    MarksDecide(c, w, a);
    FillDecides(c, w.buf.shedding, Step(c, w, a).buf.lanes);
  }

  lemma FullIsOne(c: Config, l: Lanes)
    requires c.capacity > 0 && Total(l) == c.capacity
    ensures Fill(c, l) == 1.0
  {
    var k := c.capacity as real;
    assert k > 0.0 && k / k == 1.0;
  }

  lemma FullMeansShedding(c: Config, b: Buffer, x: Signal)
    requires Deployed(c) && Watermarks(c, b) && Total(b.lanes) <= c.capacity
    requires Submit(c, b, x).1 == Rejected(HardCapacity)
    ensures b.shedding
  {
    FullIsOne(c, b.lanes);
  }

  lemma StartIsSound(c: Config)
    ensures Inv(c, START)
    ensures c.high > 0.0 ==> Watermarks(c, START.buf)
  {
  }

  /** In a deployed configuration a hard-capacity rejection happens only while shedding. */
  lemma HardRejectionOnlyWhileShedding(c: Config, actions: seq<Action>, x: Signal)
    requires Deployed(c)
    ensures var b := Run(c, START, actions).buf;
      Submit(c, b, x).1 == Rejected(HardCapacity) ==> b.shedding
  {
    StartIsSound(c);
    RunKeepsInv(c, START, actions);
    RunKeepsWatermarks(c, START, actions);
    var b := Run(c, START, actions).buf;
    if Submit(c, b, x).1 == Rejected(HardCapacity) { FullMeansShedding(c, b, x); }
  }

  /** The buffer is shedding in `w` and after every prefix of the run. */
  ghost predicate ShedsThroughout(c: Config, w: World, actions: seq<Action>)
    decreases |actions|
  {
    w.buf.shedding && (actions == [] || ShedsThroughout(c, Step(c, w, actions[0]), actions[1..]))
  }

  lemma StepWithinCeiling(c: Config, w: World, a: Action, r: nat, bound: int)
    requires w.buf.shedding && 1 <= r < 4 && |w.buf.lanes[r]| <= bound && Ceiling(c, r) <= bound
    ensures |Step(c, w, a).buf.lanes[r]| <= bound
  {
    match a
    case BeginDrain(m) => DrainShrinks(c, w, m, r);
    case _ =>
  }

  lemma DrainShrinks(c: Config, w: World, maxItems: int, r: nat)
    requires r < 4
    ensures |Step(c, w, BeginDrain(maxItems)).buf.lanes[r]| <= |w.buf.lanes[r]|
  {
    DrainStep(c, w, maxItems);
  }

  lemma {:induction false} LaneStaysWithin(c: Config, w: World, actions: seq<Action>, r: nat, bound: int)
    requires ShedsThroughout(c, w, actions)
    requires 1 <= r < 4 && |w.buf.lanes[r]| <= bound && Ceiling(c, r) <= bound
    ensures |Run(c, w, actions).buf.lanes[r]| <= bound
    decreases |actions|
  {
    if actions != [] {
      StepWithinCeiling(c, w, actions[0], r, bound);
      LaneStaysWithin(c, Step(c, w, actions[0]), actions[1..], r, bound);
    }
  }

  function Max(a: int, b: int): int {
    if a >= b then a else b
  }

  /** Within one shedding period a non-P0 lane never exceeds the larger of its size at onset and its share of the capacity. */
  lemma SheddingBoundsLanes(c: Config, w: World, actions: seq<Action>, r: nat)
    requires ShedsThroughout(c, w, actions) && 1 <= r < 4
    ensures var n := |Run(c, w, actions).buf.lanes[r]|;
      n <= |w.buf.lanes[r]| || n as real <= c.capacity as real * c.ceiling[r]
  {
    LaneStaysWithin(c, w, actions, r, Max(|w.buf.lanes[r]|, Ceiling(c, r)));
    AtMostCeiling(c, r, |Run(c, w, actions).buf.lanes[r]|);
  }

  lemma AtMostCeiling(c: Config, r: nat, n: nat)
    requires r < 4
    ensures n <= Ceiling(c, r) ==> n as real <= c.capacity as real * c.ceiling[r]
  {
  }

  /**
   * P0 over every run of a buffer with capacity: a P0 submit is accepted and
   * joins the back of its lane, none is ever shed, and one is evicted only when
   * P0 alone fills the buffer; every other eviction takes the oldest item of the
   * lowest non-empty severity.
   */
  lemma P0Guarantee(c: Config, actions: seq<Action>, x: Signal)
    requires c.capacity > 0 && x.severity == P0
    ensures var b := Run(c, START, actions).buf;
      var (b', result) := Submit(c, b, x);
      && result == Accepted
      && b.drops.cross[0][Column(ShedCeiling)] == 0
      && |b'.lanes[0]| > 0 && b'.lanes[0][|b'.lanes[0]| - 1] == x
      && match MadeRoom(c, b, x)
         case None => b'.lanes == b.lanes[0 := b.lanes[0] + [x]] && b'.drops == b.drops
         case Some(v) =>
           && (forall q :: v < q < 4 ==> b.lanes[q] == [])
           && b.lanes[v] != [] && b'.drops == RecordDrop(b.drops, v, HardCapacity)
           && (v == 0 ==> |b.lanes[0]| == c.capacity)
           && (v != 0 ==> b'.lanes == b.lanes[v := b.lanes[v][1..]][0 := b.lanes[0] + [x]])
  {
    RunKeepsInv(c, START, actions);
    SubmitDecision(c, Run(c, START, actions).buf, x);
    AcceptanceAppends(c, Run(c, START, actions).buf, x);
  }
}
