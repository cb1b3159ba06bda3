/**
 * The load test's reading of two scrapes: looking samples up, differencing the latency
 * histogram and taking a percentile of the difference.
 */
module MetricsDiff {
  import opened Histograms
  import opened JsNumbers
  import opened MetricsPage
  import opened Options
  import opened PrometheusText
  import opened PrometheusRoundTrip
  import opened Severities

  predicate Matches(s: Sample, name: string, filter: map<string, string>) {
    s.name == name && forall k :: k in filter ==> k in s.labels && s.labels[k] == filter[k]
  }

  /** `findValue`: the first matching sample's value, 0 if there is none. */
  function FindValue(samples: seq<Sample>, name: string, filter: map<string, string>): Number {
    if samples == [] then Finite(0.0)
    else if Matches(samples[0], name, filter) then samples[0].value
    else FindValue(samples[1..], name, filter)
  }

  /** `diffValue`. */
  function DiffValue(before: seq<Sample>, after: seq<Sample>, name: string, filter: map<string, string>): Number {
    Minus(FindValue(after, name, filter), FindValue(before, name, filter))
  }

  datatype Bucket = Bucket(le: Number, cumulativeInWindow: Number)

  datatype DiffedHistogram = DiffedHistogram(buckets: seq<Bucket>, count: Number, sum: Number)

  function Le(bound: string): map<string, string> { map["le" := bound] }

  function DiffBuckets(fmt: NumberFormat, before: seq<Sample>, after: seq<Sample>, name: string, bounds: seq<real>): seq<Bucket> {
    if bounds == [] then [Bucket(PlusInfinity, AtLeastZero(DiffValue(before, after, name + "_bucket", Le("+Inf"))))]
    else
      [Bucket(Finite(bounds[0]), AtLeastZero(DiffValue(before, after, name + "_bucket", Le(fmt.show(bounds[0])))))]
      + DiffBuckets(fmt, before, after, name, bounds[1..])
  }

  /** `diffHistogram`. */
  function DiffHistogram(fmt: NumberFormat, before: seq<Sample>, after: seq<Sample>, name: string, bounds: seq<real>): DiffedHistogram {
    DiffedHistogram(DiffBuckets(fmt, before, after, name, bounds),
                    AtLeastZero(DiffValue(before, after, name + "_count", map[])),
                    AtLeastZero(DiffValue(before, after, name + "_sum", map[])))
  }

  /** The position of the first bucket that reaches the target, or the number of buckets. */
  function FirstReaching(buckets: seq<Bucket>, target: Number): (k: nat)
    ensures k <= |buckets|
    ensures forall i :: 0 <= i < k ==> !AtMost(target, buckets[i].cumulativeInWindow)
    ensures k < |buckets| ==> AtMost(target, buckets[k].cumulativeInWindow)
  {
    if buckets == [] || AtMost(target, buckets[0].cumulativeInWindow) then 0 else 1 + FirstReaching(buckets[1..], target)
  }

  /** The boundary of the first bucket that reaches the target, if it is a finite one. */
  function Pick(buckets: seq<Bucket>, target: Number): Option<Number> {
    var k := FirstReaching(buckets, target);
    if k == |buckets| || buckets[k].le == PlusInfinity then None else Some(buckets[k].le)
  }

  function Percentile(h: DiffedHistogram, p: real): Option<Number> {
    if AtMost(h.count, Finite(0.0)) then None else Pick(h.buckets, Times(p, h.count))
  }

  /** `histogramPercentile`. */
  method HistogramPercentile(h: DiffedHistogram, p: real) returns (r: Option<Number>)
    ensures r == Percentile(h, p)
  {
    if AtMost(h.count, Finite(0.0)) { return None; }
    var target := Times(p, h.count);
    ghost var k := FirstReaching(h.buckets, target);
    for i := 0 to |h.buckets|
      invariant i <= k
    {
      if AtMost(target, h.buckets[i].cumulativeInWindow) {
        return if h.buckets[i].le == PlusInfinity then None else Some(h.buckets[i].le);
      }
    }
    return None;
  }

  // ---------------------------------------------------------------- looking samples up on a page

  predicate Unnamed(es: seq<Emitted>, name: string) {
    forall i :: 0 <= i < |es| ==> es[i].name != name
  }

  lemma HeadSkipped(s: Sample, tail: seq<Sample>, name: string, filter: map<string, string>)
    requires !Matches(s, name, filter)
    ensures FindValue([s] + tail, name, filter) == FindValue(tail, name, filter)
  {
    assert ([s] + tail)[1..] == tail;
  }

  lemma ReceivedKeepsName(e: Emitted, tail: seq<Sample>, name: string, filter: map<string, string>)
    requires e.name != name
    ensures FindValue(Received(e) + tail, name, filter) == FindValue(tail, name, filter)
  {
    if BraceFree(e.labels) {
      HeadSkipped(Read(e), tail, name, filter);
    } else {
      assert [] + tail == tail;
    }
  }

  lemma {:induction false} SkipUnnamed(es: seq<Emitted>, rest: seq<Sample>, name: string, filter: map<string, string>)
    requires Unnamed(es, name)
    ensures FindValue(ReceivedAll(es) + rest, name, filter) == FindValue(rest, name, filter)
  {
    if es == [] {
      assert [] + rest == rest;
    } else {
      var tail := ReceivedAll(es[1..]) + rest;
      SkipUnnamed(es[1..], rest, name, filter);
      assert ReceivedAll(es) + rest == Received(es[0]) + tail;
      ReceivedKeepsName(es[0], tail, name, filter);
    }
  }

  /** All samples of a block carry the block's name. */
  predicate Uniform(b: Block) {
    forall i :: 0 <= i < |b.samples| ==> b.samples[i].name == b.name
  }

  lemma {:induction false} ChannelsUniform(name: string, alerts: seq<ChannelCounts>)
    ensures forall i :: 0 <= i < |ByChannel(name, alerts)| ==> ByChannel(name, alerts)[i].name == name
  {
    if alerts != [] { ChannelsUniform(name, alerts[1..]); }
  }

  lemma {:induction false} BlocksUnnamed(bs: seq<Block>, name: string)
    requires forall i :: 0 <= i < |bs| ==> Uniform(bs[i]) && bs[i].name != name
    ensures Unnamed(SamplesOf(bs), name)
  {
    if bs != [] { BlocksUnnamed(bs[1..], name); }
  }

  function Front(help: string -> string, m: MetricsSnapshot): seq<Block> {
    SignalBlocks(help, m) + QueueBlocks(help, m) + AlertBlocks(help, m)
  }

  predicate LatencyName(name: string) {
    name == LATENCY + "_bucket" || name == LATENCY + "_sum" || name == LATENCY + "_count"
  }

  /** Names of another length are other names. */
  predicate Elsewhere(b: Block) { Uniform(b) && |b.name| < 29 }

  lemma LatencyNameLength(name: string)
    requires LatencyName(name)
    ensures |name| >= 29 && name[4] == 's'
  {
    assert LATENCY[4] == 's' && |LATENCY| == 25;
  }

  lemma SignalElsewhere(help: string -> string, m: MetricsSnapshot)
    ensures forall i :: 0 <= i < |SignalBlocks(help, m)| ==> Elsewhere(SignalBlocks(help, m)[i])
  {
    var bs := SignalBlocks(help, m);
    forall i | 0 <= i < 5 ensures Elsewhere(bs[i]) {
      if i == 0 {} else if i == 1 {} else if i == 2 {} else if i == 3 {} else {}
    }
  }

  lemma QueueElsewhere(help: string -> string, m: MetricsSnapshot)
    ensures forall i :: 0 <= i < |QueueBlocks(help, m)| ==> Elsewhere(QueueBlocks(help, m)[i])
  {
  }

  lemma AlertUnnamed(help: string -> string, m: MetricsSnapshot, name: string)
    requires LatencyName(name)
    ensures var bs := AlertBlocks(help, m); forall i :: 0 <= i < |bs| ==> Uniform(bs[i]) && bs[i].name != name
  {
    ChannelsUniform("ims_alerts_total", m.alerts);
    LatencyNameLength(name);
    assert "ims_escalations_triggered_total"[4] == 'e';
  }

  lemma FrontUnnamed(help: string -> string, m: MetricsSnapshot, name: string)
    requires LatencyName(name)
    ensures Unnamed(SamplesOf(Front(help, m)), name)
  {
    SignalElsewhere(help, m);
    QueueElsewhere(help, m);
    AlertUnnamed(help, m, name);
    LatencyNameLength(name);
    var bs := Front(help, m);
    BlocksUnnamed(bs, name);
  }

  lemma {:induction false} SamplesOfConcat(a: seq<Block>, b: seq<Block>)
    ensures SamplesOf(a + b) == SamplesOf(a) + SamplesOf(b)
  {
    if a == [] {
      assert a + b == b;
    } else {
      assert (a + b)[1..] == a[1..] + b;
      SamplesOfConcat(a[1..], b);
    }
  }

  /** Looking a latency sample up on the whole page finds it in the histogram's own block. */
  lemma PageLookup(fmt: NumberFormat, help: string -> string, m: MetricsSnapshot, name: string, filter: map<string, string>)
    requires Printable(fmt, help, m) && LatencyName(name)
    ensures FindValue(ParseText(fmt, RenderMetrics(fmt, help, m)), name, filter)
         == FindValue(ReceivedAll(HistogramSamples(fmt, LATENCY, m.latency)), name, filter)
  {
    var bs := BlocksOf(fmt, help, m);
    var front, own := Front(help, m), LatencyBlocks(fmt, help, m);
    var es := HistogramSamples(fmt, LATENCY, m.latency);
    PageIsGood(fmt, help, m);
    PageReceived(fmt, bs);
    SamplesOfConcat(front, own);
    assert SamplesOf(own) == es + [] == es;
    ReceivedConcat(SamplesOf(front), es);
    FrontUnnamed(help, m, name);
    SkipUnnamed(SamplesOf(front), ReceivedAll(es), name, filter);
  }

  // ---------------------------------------------------------------- the histogram's own lines

  predicate Increasing(bounds: seq<real>) {
    forall i, j :: 0 <= i < j < |bounds| ==> bounds[i] < bounds[j]
  }

  function CountsOf(bounds: seq<real>, obs: seq<real>): (counts: seq<nat>)
    ensures |counts| == |bounds| && forall i :: 0 <= i < |bounds| ==> counts[i] == CountUpTo(obs, bounds[i])
  {
    if bounds == [] then [] else [CountUpTo(obs, bounds[0])] + CountsOf(bounds[1..], obs)
  }

  lemma CountsAreSnapshot(bounds: seq<real>, obs: seq<real>)
    ensures SnapshotOf(bounds, obs).cumulativeCounts == CountsOf(bounds, obs)
  {
  }

  /** A bucket line comes back as it was sent. */
  lemma BucketReceived(fmt: NumberFormat, name: string, text: string, x: real)
    requires PlainText(text)
    ensures Received(Emitted(name, [Label("le", text)], x)) == [Sample(name, Le(text), Finite(x))]
  {
    KeysAreLegal();
    OneLabel(name, Label("le", text), x);
    var e := Emitted(name, [Label("le", text)], x);
    SampleSurvives(e);
    assert e.labels[1..] == [];
    assert LabelMap(e.labels, map[]) == Le(text);
  }

  lemma HeadFound(s: Sample, tail: seq<Sample>, name: string, filter: map<string, string>)
    requires Matches(s, name, filter)
    ensures FindValue([s] + tail, name, filter) == s.value
  {
  }

  function BucketSample(fmt: NumberFormat, name: string, bound: real, count: nat): Sample {
    Sample(name + "_bucket", Le(fmt.show(bound)), Finite(count as real))
  }

  lemma BucketsStep(fmt: NumberFormat, name: string, bounds: seq<real>, counts: seq<nat>, rest: seq<Sample>)
    requires AllPrint(fmt, bounds) && |counts| == |bounds| > 0
    ensures ReceivedAll(Buckets(fmt, name, bounds, counts)) + rest
         == [BucketSample(fmt, name, bounds[0], counts[0])] + (ReceivedAll(Buckets(fmt, name, bounds[1..], counts[1..])) + rest)
  {
    ShownIsPlain(fmt, bounds[0]);
    BucketReceived(fmt, name + "_bucket", fmt.show(bounds[0]), counts[0] as real);
    var es := Buckets(fmt, name, bounds, counts);
    assert es[1..] == Buckets(fmt, name, bounds[1..], counts[1..]);
    assert ReceivedAll(es) == [BucketSample(fmt, name, bounds[0], counts[0])] + ReceivedAll(es[1..]);
  }

  lemma LeMatches(fmt: NumberFormat, name: string, bound: real, count: nat, text: string)
    ensures Matches(BucketSample(fmt, name, bound, count), name + "_bucket", Le(text)) <==> fmt.show(bound) == text
  {
    assert "le" in Le(text) && Le(text)["le"] == text && Le(fmt.show(bound))["le"] == fmt.show(bound);
  }

  lemma ShownApart(fmt: NumberFormat, a: real, b: real)
    requires Prints(fmt, a) && Prints(fmt, b) && a != b
    ensures fmt.show(a) != fmt.show(b)
  {
    assert fmt.read(fmt.show(a)) == Finite(a) && fmt.read(fmt.show(b)) == Finite(b);
  }

  /** Looking up boundary `i` among the bucket lines finds its own count. */
  lemma {:induction false} BucketLookup(fmt: NumberFormat, name: string, bounds: seq<real>, obs: seq<real>, rest: seq<Sample>, i: nat)
    requires AllPrint(fmt, bounds) && Increasing(bounds) && i < |bounds|
    ensures FindValue(ReceivedAll(Buckets(fmt, name, bounds, CountsOf(bounds, obs))) + rest, name + "_bucket", Le(fmt.show(bounds[i])))
         == Finite(CountUpTo(obs, bounds[i]) as real)
  {
    var text := fmt.show(bounds[i]);
    var counts := CountsOf(bounds, obs);
    var first := BucketSample(fmt, name, bounds[0], counts[0]);
    var tail := ReceivedAll(Buckets(fmt, name, bounds[1..], counts[1..])) + rest;
    assert counts[1..] == CountsOf(bounds[1..], obs);
    BucketsStep(fmt, name, bounds, counts, rest);
    LeMatches(fmt, name, bounds[0], counts[0], text);
    if i == 0 {
      HeadFound(first, tail, name + "_bucket", Le(text));
    } else {
      BucketLookup(fmt, name, bounds[1..], obs, rest, i - 1);
      ShownApart(fmt, bounds[0], bounds[i]);
      HeadSkipped(first, tail, name + "_bucket", Le(text));
    }
  }

  /** No bucket line answers to another `le` text or another name. */
  lemma {:induction false} BucketsSkipped(
    fmt: NumberFormat, name: string, bounds: seq<real>, counts: seq<nat>, rest: seq<Sample>, wanted: string, filter: map<string, string>)
    requires AllPrint(fmt, bounds) && |counts| == |bounds|
    requires wanted != name + "_bucket" || filter == Le("+Inf")
    ensures FindValue(ReceivedAll(Buckets(fmt, name, bounds, counts)) + rest, wanted, filter) == FindValue(rest, wanted, filter)
  {
    if bounds == [] {
      assert [] + rest == rest;
    } else {
      BucketsStep(fmt, name, bounds, counts, rest);
      BucketsSkipped(fmt, name, bounds[1..], counts[1..], rest, wanted, filter);
      LeMatches(fmt, name, bounds[0], counts[0], "+Inf");
      HeadSkipped(BucketSample(fmt, name, bounds[0], counts[0]),
                  ReceivedAll(Buckets(fmt, name, bounds[1..], counts[1..])) + rest, wanted, filter);
    }
  }

  /** The three lines that close the histogram. */
  function Tail(name: string, sum: real, count: nat): seq<Sample> {
    [Sample(name + "_bucket", Le("+Inf"), Finite(count as real)),
     Sample(name + "_sum", map[], Finite(sum)),
     Sample(name + "_count", map[], Finite(count as real))]
  }

  lemma BareReceived(name: string, x: real)
    ensures Received(Emitted(name, [], x)) == [Sample(name, map[], Finite(x))]
  {
  }

  lemma HistogramReceived(fmt: NumberFormat, name: string, bounds: seq<real>, obs: seq<real>)
    ensures ReceivedAll(HistogramSamples(fmt, name, SnapshotOf(bounds, obs)))
         == ReceivedAll(Buckets(fmt, name, bounds, CountsOf(bounds, obs))) + Tail(name, Total(obs), |obs|)
  {
    CountsAreSnapshot(bounds, obs);
    var top := Emitted(name + "_bucket", [Label("le", "+Inf")], |obs| as real);
    var sum := Emitted(name + "_sum", [], Total(obs));
    var count := Emitted(name + "_count", [], |obs| as real);
    BucketReceived(fmt, top.name, "+Inf", top.value);
    BareReceived(sum.name, sum.value);
    BareReceived(count.name, count.value);
    ReceivedConcat(Buckets(fmt, name, bounds, CountsOf(bounds, obs)), [top, sum, count]);
    ReceivedThree(top, sum, count);
  }

  lemma ReceivedThree(a: Emitted, b: Emitted, c: Emitted)
    ensures ReceivedAll([a, b, c]) == Received(a) + Received(b) + Received(c)
  {
    assert [a, b, c][1..] == [b, c] && [b, c][1..] == [c];
    assert ReceivedAll([c]) == Received(c) + [];
  }

  lemma TailLookup(name: string, sum: real, count: nat)
    ensures FindValue(Tail(name, sum, count), name + "_bucket", Le("+Inf")) == Finite(count as real)
    ensures FindValue(Tail(name, sum, count), name + "_sum", map[]) == Finite(sum)
    ensures FindValue(Tail(name, sum, count), name + "_count", map[]) == Finite(count as real)
  {
    var t := Tail(name, sum, count);
    assert |name + "_bucket"| != |name + "_sum"| && |name + "_bucket"| != |name + "_count"| && |name + "_sum"| != |name + "_count"|;
    assert t[1..][0] == t[1] && t[1..][1..] == [t[2]];
    assert FindValue(t, name + "_count", map[]) == FindValue(t[1..], name + "_count", map[]) == FindValue([t[2]], name + "_count", map[]);
  }

  // ---------------------------------------------------------------- the difference is exact

  /** The histogram of one batch of observations, in the form of a difference. */
  function WindowBuckets(bounds: seq<real>, obs: seq<real>): seq<Bucket> {
    if bounds == [] then [Bucket(PlusInfinity, Finite(|obs| as real))]
    else [Bucket(Finite(bounds[0]), Finite(CountUpTo(obs, bounds[0]) as real))] + WindowBuckets(bounds[1..], obs)
  }

  function WindowOf(bounds: seq<real>, obs: seq<real>): DiffedHistogram {
    DiffedHistogram(WindowBuckets(bounds, obs), Finite(|obs| as real), AtLeastZero(Finite(Total(obs))))
  }

  /** What a scrape shows of the latency histogram after the observations `obs`. */
  ghost predicate Shows(fmt: NumberFormat, scrape: seq<Sample>, bounds: seq<real>, obs: seq<real>) {
    && (forall i :: 0 <= i < |bounds| ==>
          FindValue(scrape, LATENCY + "_bucket", Le(fmt.show(bounds[i]))) == Finite(CountUpTo(obs, bounds[i]) as real))
    && FindValue(scrape, LATENCY + "_bucket", Le("+Inf")) == Finite(|obs| as real)
    && FindValue(scrape, LATENCY + "_sum", map[]) == Finite(Total(obs))
    && FindValue(scrape, LATENCY + "_count", map[]) == Finite(|obs| as real)
  }

  lemma TopLookups(fmt: NumberFormat, bounds: seq<real>, obs: seq<real>)
    requires AllPrint(fmt, bounds)
    ensures var own := ReceivedAll(HistogramSamples(fmt, LATENCY, SnapshotOf(bounds, obs)));
      && FindValue(own, LATENCY + "_bucket", Le("+Inf")) == Finite(|obs| as real)
      && FindValue(own, LATENCY + "_sum", map[]) == Finite(Total(obs))
      && FindValue(own, LATENCY + "_count", map[]) == Finite(|obs| as real)
  {
    var counts, tail := CountsOf(bounds, obs), Tail(LATENCY, Total(obs), |obs|);
    HistogramReceived(fmt, LATENCY, bounds, obs);
    TailLookup(LATENCY, Total(obs), |obs|);
    assert |LATENCY + "_bucket"| != |LATENCY + "_sum"| && |LATENCY + "_bucket"| != |LATENCY + "_count"|;
    BucketsSkipped(fmt, LATENCY, bounds, counts, tail, LATENCY + "_bucket", Le("+Inf"));
    BucketsSkipped(fmt, LATENCY, bounds, counts, tail, LATENCY + "_sum", map[]);
    BucketsSkipped(fmt, LATENCY, bounds, counts, tail, LATENCY + "_count", map[]);
  }

  /** The histogram's own lines show what they should. */
  lemma OwnShows(fmt: NumberFormat, bounds: seq<real>, obs: seq<real>)
    requires AllPrint(fmt, bounds) && Increasing(bounds)
    ensures Shows(fmt, ReceivedAll(HistogramSamples(fmt, LATENCY, SnapshotOf(bounds, obs))), bounds, obs)
  {
    var own := ReceivedAll(HistogramSamples(fmt, LATENCY, SnapshotOf(bounds, obs)));
    HistogramReceived(fmt, LATENCY, bounds, obs);
    TopLookups(fmt, bounds, obs);
    forall i | 0 <= i < |bounds|
      ensures FindValue(own, LATENCY + "_bucket", Le(fmt.show(bounds[i]))) == Finite(CountUpTo(obs, bounds[i]) as real)
    {
      BucketLookup(fmt, LATENCY, bounds, obs, Tail(LATENCY, Total(obs), |obs|), i);
    }
  }

  ghost predicate AlikeForLatency(scrape: seq<Sample>, own: seq<Sample>) {
    forall name, filter :: LatencyName(name) ==> FindValue(scrape, name, filter) == FindValue(own, name, filter)
  }

  /** Two lists of samples that answer alike to every latency lookup show the same histogram. */
  lemma SameLookups(fmt: NumberFormat, own: seq<Sample>, scrape: seq<Sample>, bounds: seq<real>, obs: seq<real>)
    requires Shows(fmt, own, bounds, obs)
    requires AlikeForLatency(scrape, own)
    ensures Shows(fmt, scrape, bounds, obs)
  {
  }

  /** Every lookup on a scraped page returns the histogram's own number. */
  lemma ScrapeShows(fmt: NumberFormat, help: string -> string, m: MetricsSnapshot, bounds: seq<real>, obs: seq<real>)
    requires Printable(fmt, help, m) && Increasing(bounds)
    requires m.latency == SnapshotOf(bounds, obs)
    ensures Shows(fmt, ParseText(fmt, RenderMetrics(fmt, help, m)), bounds, obs)
  {
    OwnShows(fmt, bounds, obs);
    LatencyLookups(fmt, help, m);
    SameLookups(fmt, ReceivedAll(HistogramSamples(fmt, LATENCY, m.latency)), ParseText(fmt, RenderMetrics(fmt, help, m)), bounds, obs);
  }

  lemma LatencyLookups(fmt: NumberFormat, help: string -> string, m: MetricsSnapshot)
    requires Printable(fmt, help, m)
    ensures AlikeForLatency(ParseText(fmt, RenderMetrics(fmt, help, m)), ReceivedAll(HistogramSamples(fmt, LATENCY, m.latency)))
  {
    forall name, filter | LatencyName(name)
      ensures FindValue(ParseText(fmt, RenderMetrics(fmt, help, m)), name, filter)
           == FindValue(ReceivedAll(HistogramSamples(fmt, LATENCY, m.latency)), name, filter)
    {
      PageLookup(fmt, help, m, name, filter);
    }
  }

  lemma {:induction false} DiffBucketAt(fmt: NumberFormat, before: seq<Sample>, after: seq<Sample>, name: string, bounds: seq<real>)
    ensures var bs := DiffBuckets(fmt, before, after, name, bounds);
      && |bs| == |bounds| + 1
      && (forall i :: 0 <= i < |bounds| ==>
            bs[i] == Bucket(Finite(bounds[i]), AtLeastZero(DiffValue(before, after, name + "_bucket", Le(fmt.show(bounds[i]))))))
      && bs[|bounds|] == Bucket(PlusInfinity, AtLeastZero(DiffValue(before, after, name + "_bucket", Le("+Inf"))))
  {
    if bounds != [] { DiffBucketAt(fmt, before, after, name, bounds[1..]); }
  }

  lemma {:induction false} WindowBucketAt(bounds: seq<real>, obs: seq<real>)
    ensures var bs := WindowBuckets(bounds, obs);
      && |bs| == |bounds| + 1
      && (forall i :: 0 <= i < |bounds| ==> bs[i] == Bucket(Finite(bounds[i]), Finite(CountUpTo(obs, bounds[i]) as real)))
      && bs[|bounds|] == Bucket(PlusInfinity, Finite(|obs| as real))
  {
    if bounds != [] { WindowBucketAt(bounds[1..], obs); }
  }

  lemma BucketExactAt(
    fmt: NumberFormat, before: seq<Sample>, after: seq<Sample>, bounds: seq<real>, seen: seq<real>, more: seq<real>, i: nat)
    requires Shows(fmt, before, bounds, seen) && Shows(fmt, after, bounds, seen + more) && i < |bounds|
    ensures AtLeastZero(DiffValue(before, after, LATENCY + "_bucket", Le(fmt.show(bounds[i])))) == Finite(CountUpTo(more, bounds[i]) as real)
  {
    CountConcat(seen, more, bounds[i]);
  }

  lemma DiffBucketsExact(
    fmt: NumberFormat, before: seq<Sample>, after: seq<Sample>, bounds: seq<real>, seen: seq<real>, more: seq<real>)
    requires Shows(fmt, before, bounds, seen) && Shows(fmt, after, bounds, seen + more)
    ensures DiffBuckets(fmt, before, after, LATENCY, bounds) == WindowBuckets(bounds, more)
  {
    var diff, window := DiffBuckets(fmt, before, after, LATENCY, bounds), WindowBuckets(bounds, more);
    DiffBucketAt(fmt, before, after, LATENCY, bounds);
    WindowBucketAt(bounds, more);
    forall i | 0 <= i < |bounds| ensures diff[i] == window[i] {
      BucketExactAt(fmt, before, after, bounds, seen, more, i);
    }
  }

  lemma DiffExact(
    fmt: NumberFormat, before: seq<Sample>, after: seq<Sample>, bounds: seq<real>, seen: seq<real>, more: seq<real>)
    requires Shows(fmt, before, bounds, seen) && Shows(fmt, after, bounds, seen + more)
    ensures DiffHistogram(fmt, before, after, LATENCY, bounds) == WindowOf(bounds, more)
  {
    DiffBucketsExact(fmt, before, after, bounds, seen, more);
    TotalConcat(seen, more);
  }

  /**
   * Two scrapes of one growing stream differ by exactly the histogram of the
   * observations in between. No clamp changes a count; the one on the sum acts just
   * when the observations in between add up to less than nothing.
   */
  lemma WindowIsExact(
    fmt: NumberFormat, help: string -> string, m: MetricsSnapshot, m': MetricsSnapshot, bounds: seq<real>, seen: seq<real>, more: seq<real>)
    requires Printable(fmt, help, m) && Printable(fmt, help, m') && Increasing(bounds)
    requires m.latency == SnapshotOf(bounds, seen) && m'.latency == SnapshotOf(bounds, seen + more)
    ensures var before, after := ParseText(fmt, RenderMetrics(fmt, help, m)), ParseText(fmt, RenderMetrics(fmt, help, m'));
      DiffHistogram(fmt, before, after, LATENCY, bounds) == WindowOf(bounds, more)
  {
    ScrapeShows(fmt, help, m, bounds, seen);
    ScrapeShows(fmt, help, m', bounds, seen + more);
    DiffExact(fmt, ParseText(fmt, RenderMetrics(fmt, help, m)), ParseText(fmt, RenderMetrics(fmt, help, m')), bounds, seen, more);
  }

  // ---------------------------------------------------------------- percentiles

  /** At least `share` observations are at most `bound`. */
  predicate Covers(obs: seq<real>, bound: real, share: real) {
    CountUpTo(obs, bound) as real >= share
  }

  /** `b` is the least boundary that covers the share. */
  predicate LeastCovering(bounds: seq<real>, obs: seq<real>, share: real, b: real) {
    b in bounds && Covers(obs, b, share) && forall c :: c in bounds && Covers(obs, c, share) ==> b <= c
  }

  lemma FirstCovering(bounds: seq<real>, obs: seq<real>, share: real)
    ensures var k := FirstReaching(WindowBuckets(bounds, obs), Finite(share));
      && (forall i :: 0 <= i < k && i < |bounds| ==> !Covers(obs, bounds[i], share))
      && (k < |bounds| ==> Covers(obs, bounds[k], share))
  {
    var bs := WindowBuckets(bounds, obs);
    WindowBucketAt(bounds, obs);
    forall i | 0 <= i < |bounds| ensures AtMost(Finite(share), bs[i].cumulativeInWindow) <==> Covers(obs, bounds[i], share) {
      assert bs[i].cumulativeInWindow == Finite(CountUpTo(obs, bounds[i]) as real);
    }
  }

  lemma EarliestIsLeast(bounds: seq<real>, obs: seq<real>, share: real, k: nat)
    requires Increasing(bounds) && k < |bounds| && Covers(obs, bounds[k], share)
    requires forall i :: 0 <= i < k ==> !Covers(obs, bounds[i], share)
    ensures LeastCovering(bounds, obs, share, bounds[k])
  {
    forall c | c in bounds && Covers(obs, c, share) ensures bounds[k] <= c {
      var j :| 0 <= j < |bounds| && bounds[j] == c;
      assert j >= k;
    }
  }

  lemma PickIsLeast(bounds: seq<real>, obs: seq<real>, share: real)
    requires Increasing(bounds)
    ensures var r := Pick(WindowBuckets(bounds, obs), Finite(share));
      && (r == None <==> forall i :: 0 <= i < |bounds| ==> !Covers(obs, bounds[i], share))
      && (r == None || (r.value.Finite? && LeastCovering(bounds, obs, share, r.value.r)))
  {
    var k := FirstReaching(WindowBuckets(bounds, obs), Finite(share));
    FirstCovering(bounds, obs, share);
    WindowBucketAt(bounds, obs);
    if k < |bounds| { EarliestIsLeast(bounds, obs, share, k); }
  }

  /** Bucket `k` is the first to reach the target. */
  predicate ReachesFirst(buckets: seq<Bucket>, target: real, k: nat) {
    && k < |buckets| && AtMost(Finite(target), buckets[k].cumulativeInWindow)
    && forall i :: 0 <= i < k ==> !AtMost(Finite(target), buckets[i].cumulativeInWindow)
  }

  /** For any differenced histogram with a finite count, positive or not: which boundary is returned, and when. */
  lemma PercentileReads(h: DiffedHistogram, p: real, b: Number)
    requires h.count.Finite?
    ensures Percentile(h, p) == Some(b) <==>
      h.count.r > 0.0 && b != PlusInfinity && exists k: nat :: ReachesFirst(h.buckets, p * h.count.r, k) && h.buckets[k].le == b
  {
    ReadsAt(h, p, b, p * h.count.r);
  }

  lemma ReadsAt(h: DiffedHistogram, p: real, b: Number, target: real)
    requires h.count.Finite? && Times(p, h.count) == Finite(target)
    ensures Percentile(h, p) == Some(b) <==>
      h.count.r > 0.0 && b != PlusInfinity && exists k: nat :: ReachesFirst(h.buckets, target, k) && h.buckets[k].le == b
  {
    var k := FirstReaching(h.buckets, Finite(target));
    assert k < |h.buckets| ==> ReachesFirst(h.buckets, target, k);
    assert forall j: nat :: ReachesFirst(h.buckets, target, j) ==> j == k;
  }

  /** `p` times the number of observations. */
  function Share(p: real, n: nat): real { p * n as real }

  /**
   * The percentile reader returns the least boundary that covers `p` times the number of
   * observations, and nothing exactly when there is no observation or no such boundary.
   */
  lemma PercentileIsLeast(bounds: seq<real>, obs: seq<real>, p: real)
    requires Increasing(bounds)
    ensures var r, share := Percentile(WindowOf(bounds, obs), p), Share(p, |obs|);
      && (r == None <==> obs == [] || forall i :: 0 <= i < |bounds| ==> !Covers(obs, bounds[i], share))
      && (r == None || (r.value.Finite? && LeastCovering(bounds, obs, share, r.value.r)))
  {
    PercentileAt(bounds, obs, p, Share(p, |obs|));
  }

  lemma PercentileAt(bounds: seq<real>, obs: seq<real>, p: real, share: real)
    requires Increasing(bounds) && Times(p, Finite(|obs| as real)) == Finite(share)
    ensures var r := Percentile(WindowOf(bounds, obs), p);
      && (r == None <==> obs == [] || forall i :: 0 <= i < |bounds| ==> !Covers(obs, bounds[i], share))
      && (r == None || (r.value.Finite? && LeastCovering(bounds, obs, share, r.value.r)))
  {
    PickIsLeast(bounds, obs, share);
    assert obs != [] ==> Percentile(WindowOf(bounds, obs), p) == Pick(WindowBuckets(bounds, obs), Finite(share));
  }
}
