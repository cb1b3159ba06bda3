/** The metrics page of the backend: which blocks it has, and that it reads back as it was meant. */
module MetricsPage {
  import opened Histograms
  import opened JsNumbers
  import opened JsText
  import opened PrometheusText
  import opened PrometheusRoundTrip
  import opened Severities
  import BufferModel
  import RcaRules

  datatype ChannelCounts = ChannelCounts(channel: string, delivered: real, failed: real)

  datatype QueueDepth = QueueDepth(waiting: real, active: real, dlq: real)

  /** Everything a page is made of. The channels come in the order in which they are listed. */
  datatype MetricsSnapshot = MetricsSnapshot(
    received: Severity -> real,
    accepted: Severity -> real,
    dropped: (Severity, BufferModel.DropReason) -> real,
    bufferDepth: Severity -> real,
    bufferFill: real,
    queue: QueueDepth,
    jobsProcessed: real,
    jobsFailed: real,
    workItems: RcaRules.Status -> real,
    alerts: seq<ChannelCounts>,
    escalations: real,
    latency: HistogramSnapshot)

  function SeverityName(s: Severity): string {
    match s
    case P0 => "P0"
    case P1 => "P1"
    case P2 => "P2"
    case P3 => "P3"
  }

  function ReasonName(r: BufferModel.DropReason): string {
    match r
    case ShedCeiling => "shed_ceiling"
    case HardCapacity => "hard_capacity"
    case SinkFailure => "sink_failure"
  }

  function StateName(s: RcaRules.Status): string {
    match s
    case OPEN => "OPEN"
    case INVESTIGATING => "INVESTIGATING"
    case RESOLVED => "RESOLVED"
    case CLOSED => "CLOSED"
  }

  function BySeverity(name: string, values: Severity -> real): seq<Emitted> {
    [Emitted(name, [Label("severity", SeverityName(P0))], values(P0)),
     Emitted(name, [Label("severity", SeverityName(P1))], values(P1)),
     Emitted(name, [Label("severity", SeverityName(P2))], values(P2)),
     Emitted(name, [Label("severity", SeverityName(P3))], values(P3))]
  }

  function DroppedOf(name: string, s: Severity, values: (Severity, BufferModel.DropReason) -> real): seq<Emitted> {
    [Emitted(name, [Label("severity", SeverityName(s)), Label("reason", ReasonName(BufferModel.ShedCeiling))], values(s, BufferModel.ShedCeiling)),
     Emitted(name, [Label("severity", SeverityName(s)), Label("reason", ReasonName(BufferModel.HardCapacity))], values(s, BufferModel.HardCapacity)),
     Emitted(name, [Label("severity", SeverityName(s)), Label("reason", ReasonName(BufferModel.SinkFailure))], values(s, BufferModel.SinkFailure))]
  }

  function Dropped(name: string, values: (Severity, BufferModel.DropReason) -> real): seq<Emitted> {
    DroppedOf(name, P0, values) + DroppedOf(name, P1, values) + DroppedOf(name, P2, values) + DroppedOf(name, P3, values)
  }

  function ByState(name: string, values: RcaRules.Status -> real): seq<Emitted> {
    [Emitted(name, [Label("state", StateName(RcaRules.OPEN))], values(RcaRules.OPEN)),
     Emitted(name, [Label("state", StateName(RcaRules.INVESTIGATING))], values(RcaRules.INVESTIGATING)),
     Emitted(name, [Label("state", StateName(RcaRules.RESOLVED))], values(RcaRules.RESOLVED)),
     Emitted(name, [Label("state", StateName(RcaRules.CLOSED))], values(RcaRules.CLOSED))]
  }

  function ByTwo(name: string, key: string, first: string, x: real, second: string, y: real): seq<Emitted> {
    [Emitted(name, [Label(key, first)], x), Emitted(name, [Label(key, second)], y)]
  }

  function ByChannel(name: string, alerts: seq<ChannelCounts>): seq<Emitted> {
    if alerts == [] then []
    else
      [Emitted(name, [Label("channel", alerts[0].channel), Label("outcome", "delivered")], alerts[0].delivered),
       Emitted(name, [Label("channel", alerts[0].channel), Label("outcome", "failed")], alerts[0].failed)]
      + ByChannel(name, alerts[1..])
  }

  function Plainly(name: string, x: real): seq<Emitted> { [Emitted(name, [], x)] }

  /** The bucket lines: one for each boundary, with a missing count read as zero. */
  function Buckets(fmt: NumberFormat, name: string, bounds: seq<real>, counts: seq<nat>): seq<Emitted> {
    if bounds == [] then []
    else
      var count := if counts == [] then 0 else counts[0];
      [Emitted(name + "_bucket", [Label("le", fmt.show(bounds[0]))], count as real)]
      + Buckets(fmt, name, bounds[1..], if counts == [] then [] else counts[1..])
  }

  function HistogramSamples(fmt: NumberFormat, name: string, h: HistogramSnapshot): seq<Emitted> {
    Buckets(fmt, name, h.boundariesMs, h.cumulativeCounts)
    + [Emitted(name + "_bucket", [Label("le", "+Inf")], h.count as real),
       Emitted(name + "_sum", [], h.sum),
       Emitted(name + "_count", [], h.count as real)]
  }

  const LATENCY := "ims_signal_e2e_latency_ms"

  function Metric(help: string -> string, name: string, kind: string, samples: seq<Emitted>): Block {
    Block(name, help(name), kind, samples)
  }

  function SignalBlocks(help: string -> string, m: MetricsSnapshot): seq<Block> {
    [Metric(help, "ims_signals_received_total", "counter", BySeverity("ims_signals_received_total", m.received)),
     Metric(help, "ims_signals_accepted_total", "counter", BySeverity("ims_signals_accepted_total", m.accepted)),
     Metric(help, "ims_signals_dropped_total", "counter", Dropped("ims_signals_dropped_total", m.dropped)),
     Metric(help, "ims_buffer_depth", "gauge", BySeverity("ims_buffer_depth", m.bufferDepth)),
     Metric(help, "ims_buffer_fill_ratio", "gauge", Plainly("ims_buffer_fill_ratio", m.bufferFill))]
  }

  function QueueBlocks(help: string -> string, m: MetricsSnapshot): seq<Block> {
    [Metric(help, "ims_queue_depth", "gauge", ByTwo("ims_queue_depth", "state", "waiting", m.queue.waiting, "active", m.queue.active)),
     Metric(help, "ims_queue_dlq_size", "gauge", Plainly("ims_queue_dlq_size", m.queue.dlq)),
     Metric(help, "ims_queue_jobs_total", "counter", ByTwo("ims_queue_jobs_total", "outcome", "processed", m.jobsProcessed, "failed", m.jobsFailed)),
     Metric(help, "ims_work_items", "gauge", ByState("ims_work_items", m.workItems))]
  }

  function AlertBlocks(help: string -> string, m: MetricsSnapshot): seq<Block> {
    [Metric(help, "ims_alerts_total", "counter", ByChannel("ims_alerts_total", m.alerts)),
     Metric(help, "ims_escalations_triggered_total", "counter", Plainly("ims_escalations_triggered_total", m.escalations))]
  }

  function LatencyBlocks(fmt: NumberFormat, help: string -> string, m: MetricsSnapshot): seq<Block> {
    [Metric(help, LATENCY, "histogram", HistogramSamples(fmt, LATENCY, m.latency))]
  }

  function BlocksOf(fmt: NumberFormat, help: string -> string, m: MetricsSnapshot): seq<Block> {
    SignalBlocks(help, m) + QueueBlocks(help, m) + AlertBlocks(help, m) + LatencyBlocks(fmt, help, m)
  }

  /** `renderPrometheusMetrics`. */
  function RenderMetrics(fmt: NumberFormat, help: string -> string, m: MetricsSnapshot): string {
    RenderPage(fmt, BlocksOf(fmt, help, m))
  }

  // ---------------------------------------------------------------- the page is well formed

  /** Samples as the parser wants them: legal names and keys. */
  predicate Shaped(es: seq<Emitted>) {
    forall i :: 0 <= i < |es| ==> IsMetricName(es[i].name) && GoodKeys(es[i].labels)
  }

  predicate AllPlain(es: seq<Emitted>) {
    forall i :: 0 <= i < |es| ==> Plain(es[i])
  }

  predicate PlainText(s: string) { '\n' !in s && '}' !in s }

  predicate PlainChannels(alerts: seq<ChannelCounts>) {
    forall i :: 0 <= i < |alerts| ==> PlainText(alerts[i].channel)
  }

  predicate PlainKey(k: string) { IsKey(k) && k != PROTO }

  lemma KeysAreLegal()
    ensures PlainKey("severity") && PlainKey("reason") && PlainKey("state")
    ensures PlainKey("outcome") && PlainKey("channel") && PlainKey("le")
    ensures "channel" != "outcome"
  {
    assert |PROTO| == 9;
    assert "channel"[0] == 'c' && "outcome"[0] == 'o';
  }

  lemma OneLabel(name: string, l: Label, x: real)
    requires PlainKey(l.key)
    ensures GoodKeys([l])
    ensures Plain(Emitted(name, [l], x)) <==> PlainText(l.value)
  {
    assert [l][0] == l;
  }

  lemma TwoLabels(name: string, l: Label, r: Label, x: real)
    requires PlainKey(l.key) && PlainKey(r.key) && l.key != r.key
    ensures GoodKeys([l, r])
    ensures Plain(Emitted(name, [l, r], x)) <==> PlainText(l.value) && PlainText(r.value)
  {
    assert [l, r][0] == l && [l, r][1] == r;
  }

  lemma TextsArePlain(s: Severity, r: BufferModel.DropReason, t: RcaRules.Status)
    ensures PlainText(SeverityName(s)) && PlainText(ReasonName(r)) && PlainText(StateName(t))
  {
  }

  predicate GoodSamples(es: seq<Emitted>) { Shaped(es) && AllPlain(es) }

  lemma BySeverityGood(name: string, values: Severity -> real)
    requires IsMetricName(name)
    ensures GoodSamples(BySeverity(name, values))
  {
    KeysAreLegal();
    forall s: Severity ensures GoodSamples([Emitted(name, [Label("severity", SeverityName(s))], values(s))]) {
      TextsArePlain(s, BufferModel.ShedCeiling, RcaRules.OPEN);
      OneLabel(name, Label("severity", SeverityName(s)), values(s));
    }
    var es := BySeverity(name, values);
    assert es == [es[0]] + [es[1]] + [es[2]] + [es[3]];
  }

  lemma DroppedOfGood(name: string, s: Severity, values: (Severity, BufferModel.DropReason) -> real)
    requires IsMetricName(name)
    ensures GoodSamples(DroppedOf(name, s, values))
  {
    KeysAreLegal();
    forall r: BufferModel.DropReason
      ensures GoodSamples([Emitted(name, [Label("severity", SeverityName(s)), Label("reason", ReasonName(r))], values(s, r))])
    {
      TextsArePlain(s, r, RcaRules.OPEN);
      assert |"severity"| != |"reason"|;
      TwoLabels(name, Label("severity", SeverityName(s)), Label("reason", ReasonName(r)), values(s, r));
    }
    var es := DroppedOf(name, s, values);
    assert es == [es[0]] + [es[1]] + [es[2]];
  }

  lemma GoodConcat(a: seq<Emitted>, b: seq<Emitted>)
    ensures GoodSamples(a) && GoodSamples(b) ==> GoodSamples(a + b)
  {
  }

  lemma DroppedGood(name: string, values: (Severity, BufferModel.DropReason) -> real)
    requires IsMetricName(name)
    ensures GoodSamples(Dropped(name, values))
  {
    forall s: Severity ensures GoodSamples(DroppedOf(name, s, values)) { DroppedOfGood(name, s, values); }
    var two := DroppedOf(name, P0, values) + DroppedOf(name, P1, values);
    GoodConcat(DroppedOf(name, P0, values), DroppedOf(name, P1, values));
    GoodConcat(two, DroppedOf(name, P2, values));
    GoodConcat(two + DroppedOf(name, P2, values), DroppedOf(name, P3, values));
  }

  lemma ByStateGood(name: string, values: RcaRules.Status -> real)
    requires IsMetricName(name)
    ensures GoodSamples(ByState(name, values))
  {
    KeysAreLegal();
    forall t: RcaRules.Status ensures GoodSamples([Emitted(name, [Label("state", StateName(t))], values(t))]) {
      TextsArePlain(P0, BufferModel.ShedCeiling, t);
      OneLabel(name, Label("state", StateName(t)), values(t));
    }
    var es := ByState(name, values);
    assert es == [es[0]] + [es[1]] + [es[2]] + [es[3]];
  }

  lemma ByTwoGood(name: string, key: string, first: string, x: real, second: string, y: real)
    requires IsMetricName(name) && PlainKey(key) && PlainText(first) && PlainText(second)
    ensures GoodSamples(ByTwo(name, key, first, x, second, y))
  {
    OneLabel(name, Label(key, first), x);
    OneLabel(name, Label(key, second), y);
  }

  lemma PlainlyGood(name: string, x: real)
    requires IsMetricName(name)
    ensures GoodSamples(Plainly(name, x))
  {
  }

  lemma PairOfChannel(name: string, c: ChannelCounts)
    requires IsMetricName(name)
    ensures Shaped(ByChannel(name, [c]))
    ensures AllPlain(ByChannel(name, [c])) <==> PlainText(c.channel)
  {
    KeysAreLegal();
    var l := Label("channel", c.channel);
    TwoLabels(name, l, Label("outcome", "delivered"), c.delivered);
    TwoLabels(name, l, Label("outcome", "failed"), c.failed);
    assert PlainText("delivered") && PlainText("failed");
    assert ByChannel(name, [c][1..]) == [];
    var es := ByChannel(name, [c]);
    assert |es| == 2 && es[0] == Emitted(name, [l, Label("outcome", "delivered")], c.delivered);
    assert es[1] == Emitted(name, [l, Label("outcome", "failed")], c.failed);
  }

  lemma PlainConcat(a: seq<Emitted>, b: seq<Emitted>)
    ensures AllPlain(a + b) <==> AllPlain(a) && AllPlain(b)
  {
    assert forall i :: 0 <= i < |a| ==> a[i] == (a + b)[i];
    assert forall i :: 0 <= i < |b| ==> b[i] == (a + b)[|a| + i];
  }

  /** The channel is the only label value that comes from outside. */
  lemma {:induction false} ByChannelGood(name: string, alerts: seq<ChannelCounts>)
    requires IsMetricName(name)
    ensures Shaped(ByChannel(name, alerts))
    ensures AllPlain(ByChannel(name, alerts)) <==> PlainChannels(alerts)
  {
    if alerts != [] {
      ByChannelGood(name, alerts[1..]);
      PairOfChannel(name, alerts[0]);
      var head, rest := ByChannel(name, [alerts[0]]), ByChannel(name, alerts[1..]);
      assert ByChannel(name, alerts) == head + rest by { assert ByChannel(name, [alerts[0]][1..]) == []; }
      PlainConcat(head, rest);
      assert forall i :: 1 <= i < |alerts| ==> alerts[i] == alerts[1..][i - 1];
      assert PlainChannels(alerts) ==> PlainChannels(alerts[1..]);
    }
  }

  lemma ShownIsPlain(fmt: NumberFormat, v: real)
    requires Prints(fmt, v)
    ensures PlainText(fmt.show(v))
  {
    TokenIsOneLine(fmt.show(v));
  }

  predicate AllPrint(fmt: NumberFormat, vs: seq<real>) {
    forall i :: 0 <= i < |vs| ==> Prints(fmt, vs[i])
  }

  lemma {:induction false} BucketsGood(fmt: NumberFormat, name: string, bounds: seq<real>, counts: seq<nat>)
    requires IsMetricName(name + "_bucket") && AllPrint(fmt, bounds)
    ensures GoodSamples(Buckets(fmt, name, bounds, counts))
  {
    KeysAreLegal();
    if bounds != [] {
      ShownIsPlain(fmt, bounds[0]);
      BucketsGood(fmt, name, bounds[1..], if counts == [] then [] else counts[1..]);
      var x := (if counts == [] then 0 else counts[0]) as real;
      OneLabel(name + "_bucket", Label("le", fmt.show(bounds[0])), x);
    }
  }

  lemma HistogramGood(fmt: NumberFormat, name: string, h: HistogramSnapshot)
    requires IsMetricName(name + "_bucket") && IsMetricName(name + "_sum") && IsMetricName(name + "_count")
    requires AllPrint(fmt, h.boundariesMs)
    ensures GoodSamples(HistogramSamples(fmt, name, h))
  {
    KeysAreLegal();
    BucketsGood(fmt, name, h.boundariesMs, h.cumulativeCounts);
    var top := Emitted(name + "_bucket", [Label("le", "+Inf")], h.count as real);
    OneLabel(top.name, top.labels[0], top.value);
    PlainlyGood(name + "_sum", h.sum);
    PlainlyGood(name + "_count", h.count as real);
    GoodConcat(Buckets(fmt, name, h.boundariesMs, h.cumulativeCounts),
      [top] + Plainly(name + "_sum", h.sum) + Plainly(name + "_count", h.count as real));
  }

  lemma SignalNamesAreLegal()
    ensures IsMetricName("ims_signals_received_total") && IsMetricName("ims_signals_accepted_total")
    ensures IsMetricName("ims_signals_dropped_total")
  {
  }

  lemma BufferNamesAreLegal()
    ensures IsMetricName("ims_buffer_depth") && IsMetricName("ims_buffer_fill_ratio")
  {
  }

  lemma QueueNamesAreLegal()
    ensures IsMetricName("ims_queue_depth") && IsMetricName("ims_queue_dlq_size") && IsMetricName("ims_queue_jobs_total")
    ensures IsMetricName("ims_work_items")
  {
  }

  lemma AlertNamesAreLegal()
    ensures IsMetricName("ims_alerts_total") && IsMetricName("ims_escalations_triggered_total")
  {
  }

  lemma LatencyNamesAreLegal()
    ensures IsMetricName(LATENCY)
    ensures IsMetricName(LATENCY + "_bucket") && IsMetricName(LATENCY + "_sum") && IsMetricName(LATENCY + "_count")
  {
  }

  // ---------------------------------------------------------------- the page round trip

  /** Every number among the samples has a faithful spelling. */
  predicate PagePrints(fmt: NumberFormat, es: seq<Emitted>) {
    forall i :: 0 <= i < |es| ==> Prints(fmt, es[i].value)
  }

  ghost predicate OneLineHelp(help: string -> string) {
    forall name: string :: OneLine(help(name))
  }

  ghost predicate HistogramPrints(fmt: NumberFormat, h: HistogramSnapshot) {
    && AllPrint(fmt, h.boundariesMs)
    && (forall i :: 0 <= i < |h.cumulativeCounts| ==> Prints(fmt, h.cumulativeCounts[i] as real))
    && Prints(fmt, h.sum) && Prints(fmt, h.count as real) && Prints(fmt, 0.0)
  }

  /** Every number of the snapshot has a faithful spelling. */
  ghost predicate SnapshotPrints(fmt: NumberFormat, m: MetricsSnapshot) {
    && (forall s: Severity :: Prints(fmt, m.received(s)) && Prints(fmt, m.accepted(s)) && Prints(fmt, m.bufferDepth(s)))
    && (forall s: Severity, r: BufferModel.DropReason :: Prints(fmt, m.dropped(s, r)))
    && (forall t: RcaRules.Status :: Prints(fmt, m.workItems(t)))
    && (forall i :: 0 <= i < |m.alerts| ==> Prints(fmt, m.alerts[i].delivered) && Prints(fmt, m.alerts[i].failed))
    && Prints(fmt, m.bufferFill) && Prints(fmt, m.escalations)
    && Prints(fmt, m.queue.waiting) && Prints(fmt, m.queue.active) && Prints(fmt, m.queue.dlq)
    && Prints(fmt, m.jobsProcessed) && Prints(fmt, m.jobsFailed)
    && HistogramPrints(fmt, m.latency)
  }

  /** What the printer relies on: printable numbers, and help texts of one line. */
  ghost predicate Printable(fmt: NumberFormat, help: string -> string, m: MetricsSnapshot) {
    OneLineHelp(help) && SnapshotPrints(fmt, m)
  }

  ghost predicate BlocksPrint(fmt: NumberFormat, bs: seq<Block>) {
    forall i :: 0 <= i < |bs| ==> PagePrints(fmt, bs[i].samples)
  }

  lemma DroppedPrints(fmt: NumberFormat, name: string, values: (Severity, BufferModel.DropReason) -> real)
    requires forall s: Severity, r: BufferModel.DropReason :: Prints(fmt, values(s, r))
    ensures PagePrints(fmt, Dropped(name, values))
  {
    forall s: Severity ensures PagePrints(fmt, DroppedOf(name, s, values)) {}
  }

  lemma {:induction false} ChannelsPrint(fmt: NumberFormat, name: string, alerts: seq<ChannelCounts>)
    requires forall i :: 0 <= i < |alerts| ==> Prints(fmt, alerts[i].delivered) && Prints(fmt, alerts[i].failed)
    ensures PagePrints(fmt, ByChannel(name, alerts))
  {
    if alerts != [] { ChannelsPrint(fmt, name, alerts[1..]); }
  }

  lemma {:induction false} BucketsPrint(fmt: NumberFormat, name: string, bounds: seq<real>, counts: seq<nat>)
    requires Prints(fmt, 0.0) && forall i :: 0 <= i < |counts| ==> Prints(fmt, counts[i] as real)
    ensures PagePrints(fmt, Buckets(fmt, name, bounds, counts))
  {
    if bounds != [] { BucketsPrint(fmt, name, bounds[1..], if counts == [] then [] else counts[1..]); }
  }

  lemma SignalBlocksPrint(fmt: NumberFormat, help: string -> string, m: MetricsSnapshot)
    requires SnapshotPrints(fmt, m)
    ensures BlocksPrint(fmt, SignalBlocks(help, m))
  {
    DroppedPrints(fmt, "ims_signals_dropped_total", m.dropped);
  }

  lemma QueueBlocksPrint(fmt: NumberFormat, help: string -> string, m: MetricsSnapshot)
    requires SnapshotPrints(fmt, m)
    ensures BlocksPrint(fmt, QueueBlocks(help, m))
  {
  }

  lemma AlertBlocksPrint(fmt: NumberFormat, help: string -> string, m: MetricsSnapshot)
    requires SnapshotPrints(fmt, m)
    ensures BlocksPrint(fmt, AlertBlocks(help, m))
  {
    ChannelsPrint(fmt, "ims_alerts_total", m.alerts);
  }

  lemma LatencyBlocksPrint(fmt: NumberFormat, help: string -> string, m: MetricsSnapshot)
    requires SnapshotPrints(fmt, m)
    ensures BlocksPrint(fmt, LatencyBlocks(fmt, help, m))
  {
    BucketsPrint(fmt, LATENCY, m.latency.boundariesMs, m.latency.cumulativeCounts);
  }

  lemma AllBlocksPrint(fmt: NumberFormat, help: string -> string, m: MetricsSnapshot)
    requires SnapshotPrints(fmt, m)
    ensures BlocksPrint(fmt, BlocksOf(fmt, help, m))
  {
    SignalBlocksPrint(fmt, help, m);
    QueueBlocksPrint(fmt, help, m);
    AlertBlocksPrint(fmt, help, m);
    LatencyBlocksPrint(fmt, help, m);
  }

  predicate ShapedBlock(b: Block) { OneLine(b.name) && OneLine(b.help) && OneLine(b.kind) && Shaped(b.samples) }

  predicate ShapedPage(bs: seq<Block>) { forall i :: 0 <= i < |bs| ==> ShapedBlock(bs[i]) }

  lemma ShapedPrints(fmt: NumberFormat, bs: seq<Block>)
    requires ShapedPage(bs) && BlocksPrint(fmt, bs)
    ensures GoodPage(fmt, bs)
  {
    forall i | 0 <= i < |bs| ensures GoodBlock(fmt, bs[i]) {
      assert ShapedBlock(bs[i]) && PagePrints(fmt, bs[i].samples);
    }
  }

  predicate PlainPage(bs: seq<Block>) { forall i :: 0 <= i < |bs| ==> AllPlain(bs[i].samples) }

  lemma {:induction false} PlainPageIs(bs: seq<Block>)
    ensures AllPlain(SamplesOf(bs)) <==> PlainPage(bs)
  {
    if bs != [] {
      PlainPageIs(bs[1..]);
      PlainConcat(bs[0].samples, SamplesOf(bs[1..]));
      assert forall i :: 1 <= i < |bs| ==> bs[i] == bs[1..][i - 1];
      assert PlainPage(bs) ==> PlainPage(bs[1..]);
    }
  }

  lemma MetricShaped(help: string -> string, name: string, kind: string, samples: seq<Emitted>)
    requires OneLineHelp(help) && IsMetricName(name) && OneLine(kind) && Shaped(samples)
    ensures ShapedBlock(Metric(help, name, kind, samples))
  {
    NameIsOneLine(name);
  }

  lemma GoodMetric(help: string -> string, name: string, kind: string, samples: seq<Emitted>)
    requires OneLineHelp(help) && IsMetricName(name) && OneLine(kind) && GoodSamples(samples)
    ensures var b := Metric(help, name, kind, samples); ShapedBlock(b) && AllPlain(b.samples)
  {
    MetricShaped(help, name, kind, samples);
  }

  lemma SignalBlocksGood(help: string -> string, m: MetricsSnapshot)
    requires OneLineHelp(help)
    ensures ShapedPage(SignalBlocks(help, m)) && PlainPage(SignalBlocks(help, m))
  {
    SignalNamesAreLegal();
    BufferNamesAreLegal();
    var bs := SignalBlocks(help, m);
    forall i | 0 <= i < 5 ensures ShapedBlock(bs[i]) && AllPlain(bs[i].samples) {
      var name, kind, es := bs[i].name, bs[i].kind, bs[i].samples;
      if i == 0 { BySeverityGood(name, m.received); }
      else if i == 1 { BySeverityGood(name, m.accepted); }
      else if i == 2 { DroppedGood(name, m.dropped); }
      else if i == 3 { BySeverityGood(name, m.bufferDepth); }
      else { PlainlyGood(name, m.bufferFill); }
      GoodMetric(help, name, kind, es);
    }
  }

  lemma QueueBlocksGood(help: string -> string, m: MetricsSnapshot)
    requires OneLineHelp(help)
    ensures ShapedPage(QueueBlocks(help, m)) && PlainPage(QueueBlocks(help, m))
  {
    QueueNamesAreLegal();
    KeysAreLegal();
    var bs := QueueBlocks(help, m);
    forall i | 0 <= i < 4 ensures ShapedBlock(bs[i]) && AllPlain(bs[i].samples) {
      var name, kind, es := bs[i].name, bs[i].kind, bs[i].samples;
      if i == 0 { ByTwoGood(name, "state", "waiting", m.queue.waiting, "active", m.queue.active); }
      else if i == 1 { PlainlyGood(name, m.queue.dlq); }
      else if i == 2 { ByTwoGood(name, "outcome", "processed", m.jobsProcessed, "failed", m.jobsFailed); }
      else { ByStateGood(name, m.workItems); }
      GoodMetric(help, name, kind, es);
    }
  }

  lemma AlertBlocksGood(help: string -> string, m: MetricsSnapshot)
    requires OneLineHelp(help)
    ensures ShapedPage(AlertBlocks(help, m))
    ensures PlainPage(AlertBlocks(help, m)) <==> PlainChannels(m.alerts)
  {
    AlertNamesAreLegal();
    ByChannelGood("ims_alerts_total", m.alerts);
    MetricShaped(help, "ims_alerts_total", "counter", ByChannel("ims_alerts_total", m.alerts));
    PlainlyGood("ims_escalations_triggered_total", m.escalations);
    MetricShaped(help, "ims_escalations_triggered_total", "counter", Plainly("ims_escalations_triggered_total", m.escalations));
    var bs := AlertBlocks(help, m);
    assert bs[0].samples == ByChannel("ims_alerts_total", m.alerts);
  }

  lemma LatencyBlocksGood(fmt: NumberFormat, help: string -> string, m: MetricsSnapshot)
    requires OneLineHelp(help) && AllPrint(fmt, m.latency.boundariesMs)
    ensures ShapedPage(LatencyBlocks(fmt, help, m)) && PlainPage(LatencyBlocks(fmt, help, m))
  {
    LatencyNamesAreLegal();
    HistogramGood(fmt, LATENCY, m.latency);
    GoodMetric(help, LATENCY, "histogram", HistogramSamples(fmt, LATENCY, m.latency));
  }

  lemma ConcatPages(a: seq<Block>, b: seq<Block>)
    ensures ShapedPage(a) && ShapedPage(b) ==> ShapedPage(a + b)
    ensures PlainPage(a + b) <==> PlainPage(a) && PlainPage(b)
  {
    assert forall i :: 0 <= i < |a| ==> a[i] == (a + b)[i];
    assert forall i :: 0 <= i < |b| ==> b[i] == (a + b)[|a| + i];
  }

  lemma BlocksGood(fmt: NumberFormat, help: string -> string, m: MetricsSnapshot)
    requires OneLineHelp(help) && AllPrint(fmt, m.latency.boundariesMs)
    ensures ShapedPage(BlocksOf(fmt, help, m))
    ensures PlainPage(BlocksOf(fmt, help, m)) <==> PlainChannels(m.alerts)
  {
    SignalBlocksGood(help, m);
    QueueBlocksGood(help, m);
    AlertBlocksGood(help, m);
    LatencyBlocksGood(fmt, help, m);
    var front := SignalBlocks(help, m) + QueueBlocks(help, m);
    ConcatPages(SignalBlocks(help, m), QueueBlocks(help, m));
    ConcatPages(front, AlertBlocks(help, m));
    ConcatPages(front + AlertBlocks(help, m), LatencyBlocks(fmt, help, m));
  }

  /** The page as a whole is one the parser can be asked to read. */
  lemma PageIsGood(fmt: NumberFormat, help: string -> string, m: MetricsSnapshot)
    requires Printable(fmt, help, m)
    ensures GoodPage(fmt, BlocksOf(fmt, help, m))
  {
    BlocksGood(fmt, help, m);
    AllBlocksPrint(fmt, help, m);
    ShapedPrints(fmt, BlocksOf(fmt, help, m));
  }

  /**
   * The metrics page reads back as exactly the samples it was built from, in order, if
   * and only if no alert channel's name holds a line feed or `}`.
   */
  lemma MetricsRoundTrip(fmt: NumberFormat, help: string -> string, m: MetricsSnapshot)
    requires Printable(fmt, help, m)
    ensures ParseText(fmt, RenderMetrics(fmt, help, m)) == MeantAll(SamplesOf(BlocksOf(fmt, help, m)))
      <==> PlainChannels(m.alerts)
  {
    var bs := BlocksOf(fmt, help, m);
    PageIsGood(fmt, help, m);
    BlocksGood(fmt, help, m);
    PageRoundTrip(fmt, bs);
    PlainPageIs(bs);
    assert AllPlain(SamplesOf(bs)) <==> forall i :: 0 <= i < |SamplesOf(bs)| ==> Plain(SamplesOf(bs)[i]);
  }
}
