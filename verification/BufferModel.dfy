/**
 * What the ingestion buffer does, as functions on values. Lanes and tables are
 * indexed by severity rank; the class in SignalBuffer.dfy is proved to follow
 * these functions.
 */
module BufferModel {
  import opened Options
  import opened Severities

  datatype Signal = Signal(signalId: string, severity: Severity)

  datatype DropReason = ShedCeiling | HardCapacity | SinkFailure

  function Column(r: DropReason): (c: nat)
    ensures c < 3
  {
    match r
    case ShedCeiling => 0
    case HardCapacity => 1
    case SinkFailure => 2
  }

  /** `ceiling[r]` is the shed ceiling fraction of severity rank `r`; rank 0 has none and is never read. */
  datatype BufferConfig = BufferConfig(capacity: nat, high: real, low: real, ceiling: seq<real>)

  type Config = c: BufferConfig | |c.ceiling| == 4 witness BufferConfig(0, 1.0, 0.0, [0.0, 0.0, 0.0, 0.0])

  /** What the configuration schema guarantees at start-up. */
  predicate Deployed(c: Config) {
    && c.capacity > 0
    && 0.0 < c.high <= 1.0
    && 0.0 <= c.low < c.high
    && (forall r :: 1 <= r < 4 ==> 0.0 < c.ceiling[r] <= 1.0)
    && c.ceiling[3] < c.ceiling[2] < c.ceiling[1]
  }

  type Lanes = l: seq<seq<Signal>> | |l| == 4 witness [[], [], [], []]

  datatype DropTable = DropTable(bySeverity: seq<nat>, byReason: seq<nat>, cross: seq<seq<nat>>)

  predicate Shaped(t: DropTable) {
    && |t.bySeverity| == 4 && |t.byReason| == 3 && |t.cross| == 4
    && (forall r :: 0 <= r < 4 ==> |t.cross[r]| == 3)
  }

  type Drops = t: DropTable | Shaped(t) witness NO_DROPS

  const NO_DROPS := DropTable([0, 0, 0, 0], [0, 0, 0], [[0, 0, 0], [0, 0, 0], [0, 0, 0], [0, 0, 0]])

  datatype Buffer = Buffer(lanes: Lanes, shedding: bool, drops: Drops)

  datatype SubmitResult = Accepted | Rejected(reason: DropReason)

  const EMPTY := Buffer([[], [], [], []], false, NO_DROPS)

  function Total(l: Lanes): nat {
    |l[0]| + |l[1]| + |l[2]| + |l[3]|
  }

  function RecordDrop(t: Drops, r: nat, reason: DropReason): Drops
    requires r < 4
  {
    var c := Column(reason);
    DropTable(t.bySeverity[r := t.bySeverity[r] + 1],
              t.byReason[c := t.byReason[c] + 1],
              t.cross[r := t.cross[r][c := t.cross[r][c] + 1]])
  }

  function Fill(c: Config, l: Lanes): real {
    if c.capacity == 0 then 0.0 else Total(l) as real / c.capacity as real
  }

  function Recompute(c: Config, b: Buffer): Buffer {
    if !b.shedding && Fill(c, b.lanes) >= c.high then b.(shedding := true)
    else if b.shedding && Fill(c, b.lanes) <= c.low then b.(shedding := false)
    else b
  }

  function Ceiling(c: Config, r: nat): int
    requires r < 4
  {
    (c.capacity as real * c.ceiling[r]).Floor
  }

  /** The lowest-severity non-empty lane at or above rank `r` in urgency. */
  function Victim(l: Lanes, r: nat := 3): (v: Option<nat>)
    requires r < 4
    ensures v.Some? ==> v.value <= r && l[v.value] != [] && forall q :: v.value < q <= r ==> l[q] == []
    ensures v.None? ==> forall q :: 0 <= q <= r ==> l[q] == []
    decreases r
  {
    if l[r] != [] then Some(r) else if r == 0 then None else Victim(l, r - 1)
  }

  function Evict(b: Buffer): Buffer {
    var v := Victim(b.lanes);
    if v.None? then b
    else b.(lanes := b.lanes[v.value := b.lanes[v.value][1..]], drops := RecordDrop(b.drops, v.value, HardCapacity))
  }

  /** The push whose result the source ignores, and the watermark check after it. */
  function Enqueue(c: Config, b: Buffer, x: Signal): Buffer {
    var r := Rank(x.severity);
    Recompute(c, if |b.lanes[r]| < c.capacity then b.(lanes := b.lanes[r := b.lanes[r] + [x]]) else b)
  }

  function Submit(c: Config, b: Buffer, x: Signal): (Buffer, SubmitResult) {
    var r := Rank(x.severity);
    if b.shedding && x.severity != P0 && |b.lanes[r]| >= Ceiling(c, r) then
      (b.(drops := RecordDrop(b.drops, r, ShedCeiling)), Rejected(ShedCeiling))
    else if Total(b.lanes) >= c.capacity && x.severity != P0 then
      (b.(drops := RecordDrop(b.drops, r, HardCapacity)), Rejected(HardCapacity))
    else if Total(b.lanes) >= c.capacity then
      (Enqueue(c, Evict(b), x), Accepted)
    else
      (Enqueue(c, b, x), Accepted)
  }

  function Take(lane: seq<Signal>, room: int): nat {
    if room <= 0 then 0 else if room < |lane| then room else |lane|
  }

  /** Pop from rank `r` downwards in urgency while there is room; the batch and what stays. */
  function PopFrom(l: Lanes, r: nat, room: int): (seq<Signal>, Lanes)
    requires r <= 4
    decreases 4 - r
  {
    if r == 4 || room <= 0 then ([], l)
    else
      var n := Take(l[r], room);
      var (rest, l') := PopFrom(l[r := l[r][n..]], r + 1, room - n);
      (l[r][..n] + rest, l')
  }

  function Pop(c: Config, b: Buffer, maxItems: int): (seq<Signal>, Buffer) {
    var (batch, l) := PopFrom(b.lanes, 0, maxItems);
    (batch, if batch == [] then b else Recompute(c, b.(lanes := l)))
  }

  function RecordFailed(t: Drops, batch: seq<Signal>): Drops
    decreases |batch|
  {
    if batch == [] then t
    else RecordFailed(RecordDrop(t, Rank(batch[0].severity), SinkFailure), batch[1..])
  }

  // ---------------------------------------------------------------- one submit

  /** One more item in a lane of `n` would exceed the lane's share of the capacity. */
  predicate OverShare(c: Config, r: nat, n: nat)
    requires r < 4
  {
    (n + 1) as real > c.capacity as real * c.ceiling[r]
  }

  lemma FloorAtMost(x: real, n: nat)
    ensures n >= x.Floor <==> (n + 1) as real > x
  {
  }

  /** Rounding the ceiling down loses nothing: a lane is full when one more item exceeds its share. */
  lemma CeilingIsShare(c: Config, r: nat, n: nat)
    requires r < 4
    ensures n >= Ceiling(c, r) <==> OverShare(c, r, n)
  {
    FloorAtMost(c.capacity as real * c.ceiling[r], n);
  }

  /** Who gets in and why not, in terms of shares and sizes. */
  lemma SubmitDecision(c: Config, b: Buffer, x: Signal)
    ensures var r := Rank(x.severity);
            var held := |b.lanes[0]| + |b.lanes[1]| + |b.lanes[2]| + |b.lanes[3]|;
            var shed := x.severity != P0 && b.shedding && OverShare(c, r, |b.lanes[r]|);
      && (Submit(c, b, x).1.Accepted? <==> x.severity == P0 || (!shed && held < c.capacity))
      && (Submit(c, b, x).1 == Rejected(ShedCeiling) <==> shed)
      && (Submit(c, b, x).1 == Rejected(HardCapacity) <==> x.severity != P0 && !shed && held >= c.capacity)
  {
    CeilingIsShare(c, Rank(x.severity), |b.lanes[Rank(x.severity)]|);
  }

  lemma ShareMonotone(c: Config, q: nat, r: nat, m: nat, n: nat)
    requires q < 4 && r < 4 && c.ceiling[r] <= c.ceiling[q] && m <= n && OverShare(c, q, m)
    ensures OverShare(c, r, n)
  {
    assert c.capacity as real * c.ceiling[r] <= c.capacity as real * c.ceiling[q];
  }

  /** In a deployed configuration a less urgent severity never has more room than a more urgent one. */
  lemma UrgencyDecidesWhoIsShed(c: Config, b: Buffer, x: Signal, y: Signal)
    requires Deployed(c) && 1 <= Rank(x.severity) < Rank(y.severity)
    requires |b.lanes[Rank(x.severity)]| <= |b.lanes[Rank(y.severity)]|
    requires Submit(c, b, x).1 == Rejected(ShedCeiling)
    ensures Submit(c, b, y).1 == Rejected(ShedCeiling)
  {
    var q, r := Rank(x.severity), Rank(y.severity);
    SubmitDecision(c, b, x);
    SubmitDecision(c, b, y);
    ShareMonotone(c, q, r, |b.lanes[q]|, |b.lanes[r]|);
  }

  /** A rejected signal changes one cell of the tables and nothing else. */
  lemma RejectionOnlyCounts(c: Config, b: Buffer, x: Signal)
    requires Submit(c, b, x).1.Rejected?
    ensures Submit(c, b, x).0 == b.(drops := RecordDrop(b.drops, Rank(x.severity), Submit(c, b, x).1.reason))
  {
  }

  /**
   * An accepted signal joins the back of its lane; the only other change to the
   * lanes is the victim's head leaving when the buffer was full, and the push
   * result the source ignores is always true.
   */
  lemma AcceptanceAppends(c: Config, b: Buffer, x: Signal)
    requires c.capacity > 0 && Total(b.lanes) <= c.capacity && Submit(c, b, x).1.Accepted?
    ensures var r, l, l' := Rank(x.severity), b.lanes, Submit(c, b, x).0.lanes;
      && (Total(l) < c.capacity ==> l' == l[r := l[r] + [x]] && Submit(c, b, x).0.drops == b.drops)
      && (Total(l) == c.capacity ==>
            && x.severity == P0 && Victim(l).Some?
            && var v := Victim(l).value;
               var evicted := l[v := l[v][1..]];
               l' == evicted[0 := evicted[0] + [x]]
               && Submit(c, b, x).0.drops == RecordDrop(b.drops, v, HardCapacity))
  {
  }

  /** A P0 is evicted only when P0 alone fills the whole capacity. */
  lemma P0EvictedOnlyAlone(c: Config, b: Buffer, x: Signal)
    requires c.capacity > 0 && Total(b.lanes) <= c.capacity
    requires x.severity == P0 && Total(b.lanes) >= c.capacity && Victim(b.lanes) == Some(0)
    ensures |b.lanes[0]| == c.capacity && b.lanes[1] == b.lanes[2] == b.lanes[3] == []
  {
  }

  // ---------------------------------------------------------------- one drain

  /** How many items each lane gives to a batch of at most `maxItems`. */
  function Taken(l: Lanes, maxItems: int): (n: seq<nat>)
    ensures |n| == 4 && forall r :: 0 <= r < 4 ==> n[r] <= |l[r]|
  {
    var n0 := Take(l[0], maxItems);
    var n1 := Take(l[1], maxItems - n0);
    var n2 := Take(l[2], maxItems - n0 - n1);
    [n0, n1, n2, Take(l[3], maxItems - n0 - n1 - n2)]
  }

  /** The lanes after giving up the prefixes `n`. */
  function Suffixes(l: Lanes, n: seq<nat>): Lanes
    requires |n| == 4 && forall r :: 0 <= r < 4 ==> n[r] <= |l[r]|
  {
    [l[0][n[0]..], l[1][n[1]..], l[2][n[2]..], l[3][n[3]..]]
  }

  /** The batch made of the prefixes `n`, most urgent lane first. */
  function Prefixes(l: Lanes, n: seq<nat>): seq<Signal>
    requires |n| == 4 && forall r :: 0 <= r < 4 ==> n[r] <= |l[r]|
  {
    l[0][..n[0]] + (l[1][..n[1]] + (l[2][..n[2]] + l[3][..n[3]]))
  }

  /** `min(maxItems, total)`, and zero for a negative limit. */
  function BatchSize(l: Lanes, maxItems: int): nat {
    if maxItems <= 0 then 0 else if maxItems < Total(l) then maxItems else Total(l)
  }

  /** A lane gives an item only when every more urgent lane has been emptied. */
  lemma TakenByPriority(l: Lanes, maxItems: int, r: nat, q: nat)
    requires r < q < 4 && Taken(l, maxItems)[q] > 0
    ensures Taken(l, maxItems)[r] == |l[r]|
  {
  }

  lemma PopLast(a: seq<Signal>, b: seq<Signal>, c: seq<Signal>, d: seq<Signal>, room: int)
    ensures var n := Take(d, room); PopFrom([a, b, c, d], 3, room) == (d[..n], [a, b, c, d[n..]])
  {
    var l: Lanes := [a, b, c, d];
    if room > 0 {
      var n := Take(d, room);
      assert l[3 := d[n..]] == [a, b, c, d[n..]];
      assert d[..n] + [] == d[..n];
    } else {
      assert [a, b, c, d[0..]] == l;
    }
  }

  lemma PopLastTwo(a: seq<Signal>, b: seq<Signal>, c: seq<Signal>, d: seq<Signal>, room: int)
    ensures var m := Take(c, room); var n := Take(d, room - m);
            PopFrom([a, b, c, d], 2, room) == (c[..m] + d[..n], [a, b, c[m..], d[n..]])
  {
    var l: Lanes := [a, b, c, d];
    var m := Take(c, room);
    if room > 0 {
      assert l[2 := c[m..]] == [a, b, c[m..], d];
      PopLast(a, b, c[m..], d, room - m);
    } else {
      assert [a, b, c[0..], d[0..]] == l;
      assert c[..0] + d[..0] == [];
    }
  }

  lemma PopLastThree(a: seq<Signal>, b: seq<Signal>, c: seq<Signal>, d: seq<Signal>, room: int)
    ensures var k := Take(b, room); var m := Take(c, room - k); var n := Take(d, room - k - m);
            PopFrom([a, b, c, d], 1, room) == (b[..k] + (c[..m] + d[..n]), [a, b[k..], c[m..], d[n..]])
  {
    var l: Lanes := [a, b, c, d];
    var k := Take(b, room);
    if room > 0 {
      assert l[1 := b[k..]] == [a, b[k..], c, d];
      PopLastTwo(a, b[k..], c, d, room - k);
    } else {
      assert [a, b[0..], c[0..], d[0..]] == l;
      assert b[..0] + (c[..0] + d[..0]) == [];
    }
  }

  lemma PopFour(a: seq<Signal>, b: seq<Signal>, c: seq<Signal>, d: seq<Signal>, room: int)
    ensures var h := Take(a, room); var k := Take(b, room - h); var m := Take(c, room - h - k); var n := Take(d, room - h - k - m);
            PopFrom([a, b, c, d], 0, room) == (a[..h] + (b[..k] + (c[..m] + d[..n])), [a[h..], b[k..], c[m..], d[n..]])
  {
    var l: Lanes := [a, b, c, d];
    var h := Take(a, room);
    if room > 0 {
      assert l[0 := a[h..]] == [a[h..], b, c, d];
      PopLastThree(a[h..], b, c, d, room - h);
    } else {
      assert [a[0..], b[0..], c[0..], d[0..]] == l;
      assert a[..0] + (b[..0] + (c[..0] + d[..0])) == [];
    }
  }

  /**
   * A drained batch is the P0-to-P3 concatenation of lane prefixes, what stays is
   * the lane suffixes, and its length is min(maxItems, total).
   */
  lemma PopIsPriorityPrefix(l: Lanes, maxItems: int)
    ensures PopFrom(l, 0, maxItems) == (Prefixes(l, Taken(l, maxItems)), Suffixes(l, Taken(l, maxItems)))
    ensures |PopFrom(l, 0, maxItems).0| == BatchSize(l, maxItems)
  {
    assert l == [l[0], l[1], l[2], l[3]];
    PopFour(l[0], l[1], l[2], l[3], maxItems);
    PrefixesLength(l, maxItems);
  }

  lemma PrefixesLength(l: Lanes, maxItems: int)
    ensures |Prefixes(l, Taken(l, maxItems))| == BatchSize(l, maxItems)
  {
  }
}
