/** Every number of a metrics snapshot is found on the scraped page under its own name and labels. */
module MetricsLookup {
  import opened JsNumbers
  import opened MetricsDiff
  import opened MetricsPage
  import opened PrometheusText
  import opened PrometheusRoundTrip
  import opened Severities
  import BufferModel
  import RcaRules

  // ---------------------------------------------------------------- inside one block

  /** The first sample that answers to a filter is the one found, if all samples up to it come back as sent. */
  lemma {:induction false} FirstHit(es: seq<Emitted>, k: nat, rest: seq<Sample>, name: string, filter: map<string, string>)
    requires k < |es| && forall j :: 0 <= j <= k ==> Received(es[j]) == [Meant(es[j])]
    requires forall j :: 0 <= j < k ==> !Matches(Meant(es[j]), name, filter)
    requires Matches(Meant(es[k]), name, filter)
    ensures FindValue(ReceivedAll(es) + rest, name, filter) == Finite(es[k].value)
  {
    var tail := ReceivedAll(es[1..]) + rest;
    assert ReceivedAll(es) + rest == [Meant(es[0])] + tail;
    if k == 0 {
      HeadFound(Meant(es[0]), tail, name, filter);
    } else {
      HeadSkipped(Meant(es[0]), tail, name, filter);
      FirstHit(es[1..], k - 1, rest, name, filter);
    }
  }

  function One(key: string, value: string): map<string, string> { map[key := value] }

  function Two(first: string, a: string, second: string, b: string): map<string, string> { map[first := a, second := b] }

  lemma OneReceived(e: Emitted, name: string, key: string, text: string)
    requires e.name == name && e.labels == [Label(key, text)] && PlainKey(key) && PlainText(text)
    ensures Received(e) == [Meant(e)] && Meant(e) == Sample(name, One(key, text), Finite(e.value))
  {
    OneLabel(name, Label(key, text), e.value);
    SampleSurvives(e);
    assert e.labels[1..] == [];
    assert LabelMap(e.labels, map[]) == One(key, text);
  }

  lemma OneMatches(name: string, key: string, text: string, wanted: string, x: Number)
    ensures Matches(Sample(name, One(key, text), x), name, One(key, wanted)) <==> text == wanted
  {
    assert key in One(key, wanted) && One(key, wanted)[key] == wanted && One(key, text)[key] == text;
  }

  predicate OneKeyed(es: seq<Emitted>, name: string, key: string, texts: seq<string>) {
    && |es| == |texts|
    && forall j :: 0 <= j < |es| ==> es[j].name == name && es[j].labels == [Label(key, texts[j])] && PlainText(texts[j])
  }

  /** Samples told apart by one label. */
  lemma OneKeyLookup(es: seq<Emitted>, name: string, key: string, texts: seq<string>, k: nat, rest: seq<Sample>)
    requires OneKeyed(es, name, key, texts) && PlainKey(key) && k < |es|
    requires forall j :: 0 <= j < k ==> texts[j] != texts[k]
    ensures FindValue(ReceivedAll(es) + rest, name, One(key, texts[k])) == Finite(es[k].value)
  {
    forall j | 0 <= j <= k
      ensures Received(es[j]) == [Meant(es[j])] && (Matches(Meant(es[j]), name, One(key, texts[k])) <==> j == k)
    {
      OneReceived(es[j], name, key, texts[j]);
      OneMatches(name, key, texts[j], texts[k], Finite(es[j].value));
    }
    FirstHit(es, k, rest, name, One(key, texts[k]));
  }

  lemma TwoReceived(e: Emitted, name: string, l: Label, r: Label)
    requires e.name == name && e.labels == [l, r] && PlainKey(l.key) && PlainKey(r.key) && l.key != r.key
    requires PlainText(l.value) && PlainText(r.value)
    ensures Received(e) == [Meant(e)] && Meant(e) == Sample(name, Two(l.key, l.value, r.key, r.value), Finite(e.value))
  {
    TwoLabels(name, l, r, e.value);
    SampleSurvives(e);
    assert e.labels[1..] == [r] && [r][1..] == [];
    assert LabelMap([r], map[l.key := l.value]) == map[l.key := l.value][r.key := r.value];
  }

  lemma TwoMatches(name: string, l: Label, r: Label, a: string, b: string, x: Number)
    requires l.key != r.key
    ensures Matches(Sample(name, Two(l.key, l.value, r.key, r.value), x), name, Two(l.key, a, r.key, b))
      <==> l.value == a && r.value == b
  {
    var sent, wanted := Two(l.key, l.value, r.key, r.value), Two(l.key, a, r.key, b);
    assert l.key in wanted && wanted[l.key] == a && sent[l.key] == l.value;
    assert r.key in wanted && wanted[r.key] == b && sent[r.key] == r.value;
  }

  /** A sample without labels. */
  lemma PlainlyLookup(name: string, x: real, rest: seq<Sample>)
    ensures FindValue(ReceivedAll(Plainly(name, x)) + rest, name, map[]) == Finite(x)
  {
    var e := Emitted(name, [], x);
    BareReceived(name, x);
    assert Received(e) == [Meant(e)];
    FirstHit(Plainly(name, x), 0, rest, name, map[]);
  }

  lemma ByTwoLookup(name: string, key: string, first: string, x: real, second: string, y: real, rest: seq<Sample>)
    requires PlainKey(key) && PlainText(first) && PlainText(second) && first != second
    ensures FindValue(ReceivedAll(ByTwo(name, key, first, x, second, y)) + rest, name, One(key, first)) == Finite(x)
    ensures FindValue(ReceivedAll(ByTwo(name, key, first, x, second, y)) + rest, name, One(key, second)) == Finite(y)
  {
    var es := ByTwo(name, key, first, x, second, y);
    OneKeyLookup(es, name, key, [first, second], 0, rest);
    OneKeyLookup(es, name, key, [first, second], 1, rest);
  }

  /** What a scrape shows of a family with one number for each severity. */
  ghost predicate ShowsSeverities(scrape: seq<Sample>, name: string, values: Severity -> real) {
    && FindValue(scrape, name, map["severity" := "P0"]) == Finite(values(P0))
    && FindValue(scrape, name, map["severity" := "P1"]) == Finite(values(P1))
    && FindValue(scrape, name, map["severity" := "P2"]) == Finite(values(P2))
    && FindValue(scrape, name, map["severity" := "P3"]) == Finite(values(P3))
  }

  lemma SeverityNamesApart(s: Severity, t: Severity)
    ensures s != t ==> SeverityName(s) != SeverityName(t)
  {
    assert "P0"[1] == '0' && "P1"[1] == '1' && "P2"[1] == '2' && "P3"[1] == '3';
  }

  lemma SeverityLookup(name: string, values: Severity -> real, rest: seq<Sample>, s: Severity)
    ensures FindValue(ReceivedAll(BySeverity(name, values)) + rest, name, One("severity", SeverityName(s))) == Finite(values(s))
  {
    var es, texts := BySeverity(name, values), seq(4, i requires 0 <= i < 4 => SeverityName(OfRank(i)));
    KeysAreLegal();
    forall i | 0 <= i < 4
      ensures es[i] == Emitted(name, [Label("severity", texts[i])], values(OfRank(i))) && PlainText(texts[i])
      ensures i < Rank(s) ==> texts[i] != texts[Rank(s)]
    {
      TextsArePlain(OfRank(i), BufferModel.ShedCeiling, RcaRules.OPEN);
      SeverityNamesApart(OfRank(i), s);
    }
    OneKeyLookup(es, name, "severity", texts, Rank(s), rest);
  }

  lemma BySeverityLookup(name: string, values: Severity -> real, rest: seq<Sample>)
    ensures ShowsSeverities(ReceivedAll(BySeverity(name, values)) + rest, name, values)
  {
    var scrape := ReceivedAll(BySeverity(name, values)) + rest;
    forall s ensures FindValue(scrape, name, One("severity", SeverityName(s))) == Finite(values(s)) {
      SeverityLookup(name, values, rest, s);
    }
    SeveritiesSpelled(scrape, name, values);
  }

  lemma SeveritiesSpelled(scrape: seq<Sample>, name: string, values: Severity -> real)
    requires forall s :: FindValue(scrape, name, One("severity", SeverityName(s))) == Finite(values(s))
    ensures ShowsSeverities(scrape, name, values)
  {
    assert SeverityName(P0) == "P0" && SeverityName(P1) == "P1" && SeverityName(P2) == "P2" && SeverityName(P3) == "P3";
  }

  /** What a scrape shows of the work items by state. */
  ghost predicate ShowsStates(scrape: seq<Sample>, name: string, values: RcaRules.Status -> real) {
    && FindValue(scrape, name, map["state" := "OPEN"]) == Finite(values(RcaRules.OPEN))
    && FindValue(scrape, name, map["state" := "INVESTIGATING"]) == Finite(values(RcaRules.INVESTIGATING))
    && FindValue(scrape, name, map["state" := "RESOLVED"]) == Finite(values(RcaRules.RESOLVED))
    && FindValue(scrape, name, map["state" := "CLOSED"]) == Finite(values(RcaRules.CLOSED))
  }

  lemma StateNamesApart(s: RcaRules.Status, t: RcaRules.Status)
    ensures s != t ==> StateName(s) != StateName(t)
  {
    assert |"OPEN"| == 4 && |"INVESTIGATING"| == 13 && |"RESOLVED"| == 8 && |"CLOSED"| == 6;
  }

  lemma StateLookup(name: string, values: RcaRules.Status -> real, rest: seq<Sample>, t: RcaRules.Status)
    ensures FindValue(ReceivedAll(ByState(name, values)) + rest, name, One("state", StateName(t))) == Finite(values(t))
  {
    var states := [RcaRules.OPEN, RcaRules.INVESTIGATING, RcaRules.RESOLVED, RcaRules.CLOSED];
    var es, texts := ByState(name, values), seq(4, i requires 0 <= i < 4 => StateName(states[i]));
    var k := match t case OPEN => 0 case INVESTIGATING => 1 case RESOLVED => 2 case CLOSED => 3;
    KeysAreLegal();
    forall i | 0 <= i < 4
      ensures es[i] == Emitted(name, [Label("state", texts[i])], values(states[i])) && PlainText(texts[i])
      ensures i < k ==> texts[i] != texts[k]
    {
      TextsArePlain(P0, BufferModel.ShedCeiling, states[i]);
      StateNamesApart(states[i], states[k]);
    }
    OneKeyLookup(es, name, "state", texts, k, rest);
  }

  lemma StatesSpelled(scrape: seq<Sample>, name: string, values: RcaRules.Status -> real)
    requires forall t :: FindValue(scrape, name, One("state", StateName(t))) == Finite(values(t))
    ensures ShowsStates(scrape, name, values)
  {
    assert StateName(RcaRules.OPEN) == "OPEN" && StateName(RcaRules.INVESTIGATING) == "INVESTIGATING";
    assert StateName(RcaRules.RESOLVED) == "RESOLVED" && StateName(RcaRules.CLOSED) == "CLOSED";
  }

  // ---------------------------------------------------------------- drops by severity and reason

  function Dropping(severity: string, reason: string): map<string, string> { Two("severity", severity, "reason", reason) }

  ghost predicate ShowsDrops(scrape: seq<Sample>, name: string, values: (Severity, BufferModel.DropReason) -> real) {
    && ShowsReasons(scrape, name, "P0", values, P0)
    && ShowsReasons(scrape, name, "P1", values, P1)
    && ShowsReasons(scrape, name, "P2", values, P2)
    && ShowsReasons(scrape, name, "P3", values, P3)
  }

  /** What a scrape shows of the drops of one severity. */
  ghost predicate ShowsReasons(
    scrape: seq<Sample>, name: string, severity: string, values: (Severity, BufferModel.DropReason) -> real, s: Severity)
  {
    && FindValue(scrape, name, Dropping(severity, "shed_ceiling")) == Finite(values(s, BufferModel.ShedCeiling))
    && FindValue(scrape, name, Dropping(severity, "hard_capacity")) == Finite(values(s, BufferModel.HardCapacity))
    && FindValue(scrape, name, Dropping(severity, "sink_failure")) == Finite(values(s, BufferModel.SinkFailure))
  }

  lemma ReasonNamesApart(r: BufferModel.DropReason, q: BufferModel.DropReason)
    ensures r != q ==> ReasonName(r) != ReasonName(q)
  {
    assert |"shed_ceiling"| == 12 && |"hard_capacity"| == 13 && |"sink_failure"| == 12;
    assert "shed_ceiling"[1] == 'h' && "sink_failure"[1] == 'i';
  }

  /** A drop sample comes back as sent and answers to its own severity and reason only. */
  lemma DropReceived(name: string, s: Severity, r: BufferModel.DropReason, x: real, t: Severity, q: BufferModel.DropReason)
    ensures var e := Emitted(name, [Label("severity", SeverityName(s)), Label("reason", ReasonName(r))], x);
      && Received(e) == [Meant(e)]
      && (Matches(Meant(e), name, Dropping(SeverityName(t), ReasonName(q))) <==> s == t && r == q)
  {
    var l, k := Label("severity", SeverityName(s)), Label("reason", ReasonName(r));
    KeysAreLegal();
    TextsArePlain(s, r, RcaRules.OPEN);
    assert |"severity"| != |"reason"|;
    TwoReceived(Emitted(name, [l, k], x), name, l, k);
    TwoMatches(name, l, k, SeverityName(t), ReasonName(q), Finite(x));
    SeverityNamesApart(s, t);
    ReasonNamesApart(r, q);
  }

  function SeverityAt(i: nat): Severity
    requires i < 12
  {
    OfRank(i / 3)
  }

  function ReasonAt(i: nat): BufferModel.DropReason
    requires i < 12
  {
    [BufferModel.ShedCeiling, BufferModel.HardCapacity, BufferModel.SinkFailure][i % 3]
  }

  lemma DroppedAt(name: string, values: (Severity, BufferModel.DropReason) -> real, i: nat)
    requires i < 12
    ensures |Dropped(name, values)| == 12
    ensures Dropped(name, values)[i] ==
      Emitted(name, [Label("severity", SeverityName(SeverityAt(i))), Label("reason", ReasonName(ReasonAt(i)))],
              values(SeverityAt(i), ReasonAt(i)))
  {
    var es := Dropped(name, values);
    assert es[i] == DroppedOf(name, OfRank(i / 3), values)[i % 3];
  }

  lemma DropLookup(name: string, values: (Severity, BufferModel.DropReason) -> real, rest: seq<Sample>, k: nat)
    requires k < 12
    ensures FindValue(ReceivedAll(Dropped(name, values)) + rest, name, Dropping(SeverityName(SeverityAt(k)), ReasonName(ReasonAt(k))))
         == Finite(values(SeverityAt(k), ReasonAt(k)))
  {
    var es := Dropped(name, values);
    var filter := Dropping(SeverityName(SeverityAt(k)), ReasonName(ReasonAt(k)));
    DroppedAt(name, values, k);
    forall i | 0 <= i <= k ensures Received(es[i]) == [Meant(es[i])] && (Matches(Meant(es[i]), name, filter) <==> i == k) {
      DroppedAt(name, values, i);
      DropReceived(name, SeverityAt(i), ReasonAt(i), values(SeverityAt(i), ReasonAt(i)), SeverityAt(k), ReasonAt(k));
      assert i == k <==> i / 3 == k / 3 && i % 3 == k % 3;
    }
    FirstHit(es, k, rest, name, filter);
  }

  lemma DropFound(name: string, values: (Severity, BufferModel.DropReason) -> real, rest: seq<Sample>, s: Severity, r: BufferModel.DropReason)
    ensures FindValue(ReceivedAll(Dropped(name, values)) + rest, name, Dropping(SeverityName(s), ReasonName(r))) == Finite(values(s, r))
  {
    var k := 3 * Rank(s) + BufferModel.Column(r);
    assert SeverityAt(k) == s && ReasonAt(k) == r;
    DropLookup(name, values, rest, k);
  }

  lemma ReasonsSpelled(scrape: seq<Sample>, name: string, severity: string, values: (Severity, BufferModel.DropReason) -> real, s: Severity)
    requires forall r :: FindValue(scrape, name, Dropping(severity, ReasonName(r))) == Finite(values(s, r))
    ensures ShowsReasons(scrape, name, severity, values, s)
  {
    assert ReasonName(BufferModel.ShedCeiling) == "shed_ceiling" && ReasonName(BufferModel.HardCapacity) == "hard_capacity";
    assert ReasonName(BufferModel.SinkFailure) == "sink_failure";
  }

  lemma DropsSpelled(scrape: seq<Sample>, name: string, values: (Severity, BufferModel.DropReason) -> real)
    requires forall s :: ShowsReasons(scrape, name, SeverityName(s), values, s)
    ensures ShowsDrops(scrape, name, values)
  {
    assert SeverityName(P0) == "P0" && SeverityName(P1) == "P1" && SeverityName(P2) == "P2" && SeverityName(P3) == "P3";
  }

  // ---------------------------------------------------------------- alerts by channel

  function Alerting(channel: string, outcome: string): map<string, string> { Two("channel", channel, "outcome", outcome) }

  lemma AlertReceived(name: string, channel: string, outcome: string, x: real, wanted: string, asked: string)
    requires PlainText(channel) && PlainText(outcome)
    ensures var e := Emitted(name, [Label("channel", channel), Label("outcome", outcome)], x);
      && Received(e) == [Meant(e)]
      && (Matches(Meant(e), name, Alerting(wanted, asked)) <==> channel == wanted && outcome == asked)
  {
    var l, k := Label("channel", channel), Label("outcome", outcome);
    KeysAreLegal();
    TwoReceived(Emitted(name, [l, k], x), name, l, k);
    TwoMatches(name, l, k, wanted, asked, Finite(x));
  }

  lemma OutcomesApart()
    ensures "delivered" != "failed" && PlainText("delivered") && PlainText("failed")
  {
    assert |"delivered"| == 9 && |"failed"| == 6;
  }

  /** The two samples of the first channel, then the others. */
  lemma {:induction false} FirstChannel(name: string, alerts: seq<ChannelCounts>)
    requires alerts != [] && PlainText(alerts[0].channel)
    ensures var a := alerts[0];
            var d, f := Emitted(name, [Label("channel", a.channel), Label("outcome", "delivered")], a.delivered),
                        Emitted(name, [Label("channel", a.channel), Label("outcome", "failed")], a.failed);
      ReceivedAll(ByChannel(name, alerts)) == [Meant(d)] + ([Meant(f)] + ReceivedAll(ByChannel(name, alerts[1..])))
  {
    var a, more := alerts[0], ByChannel(name, alerts[1..]);
    var d, f := Emitted(name, [Label("channel", a.channel), Label("outcome", "delivered")], a.delivered),
                Emitted(name, [Label("channel", a.channel), Label("outcome", "failed")], a.failed);
    OutcomesApart();
    AlertReceived(name, a.channel, "delivered", a.delivered, "", "");
    AlertReceived(name, a.channel, "failed", a.failed, "", "");
    var es := ByChannel(name, alerts);
    assert es == [d, f] + more;
    assert es[0] == d && es[1..][0] == f && es[1..][1..] == more;
    assert ReceivedAll(es) == Received(d) + ReceivedAll(es[1..]);
    assert ReceivedAll(es[1..]) == Received(f) + ReceivedAll(more);
  }

  lemma {:induction false} FirstOfTwo(d: Sample, f: Sample, more: seq<Sample>, name: string, filter: map<string, string>)
    ensures FindValue([d] + ([f] + more), name, filter)
         == if Matches(d, name, filter) then d.value else if Matches(f, name, filter) then f.value else FindValue(more, name, filter)
  {
    if !Matches(d, name, filter) { HeadSkipped(d, [f] + more, name, filter); }
    if !Matches(f, name, filter) { HeadSkipped(f, more, name, filter); }
  }

  lemma {:induction false} OutcomeLookup(name: string, alerts: seq<ChannelCounts>, rest: seq<Sample>, wanted: string, asked: string)
    requires alerts != [] && PlainText(alerts[0].channel)
    ensures FindValue(ReceivedAll(ByChannel(name, alerts)) + rest, name, Alerting(wanted, asked))
         == if alerts[0].channel == wanted && asked == "delivered" then Finite(alerts[0].delivered)
            else if alerts[0].channel == wanted && asked == "failed" then Finite(alerts[0].failed)
            else FindValue(ReceivedAll(ByChannel(name, alerts[1..])) + rest, name, Alerting(wanted, asked))
  {
    var a, more := alerts[0], ReceivedAll(ByChannel(name, alerts[1..]));
    var d, f := Meant(Emitted(name, [Label("channel", a.channel), Label("outcome", "delivered")], a.delivered)),
                Meant(Emitted(name, [Label("channel", a.channel), Label("outcome", "failed")], a.failed));
    FirstChannel(name, alerts);
    OutcomesApart();
    AlertReceived(name, a.channel, "delivered", a.delivered, wanted, asked);
    AlertReceived(name, a.channel, "failed", a.failed, wanted, asked);
    assert ReceivedAll(ByChannel(name, alerts)) + rest == [d] + ([f] + (more + rest));
    FirstOfTwo(d, f, more + rest, name, Alerting(wanted, asked));
  }

  function CountFor(c: ChannelCounts, delivered: bool): real { if delivered then c.delivered else c.failed }

  function OutcomeName(delivered: bool): string { if delivered then "delivered" else "failed" }

  lemma FirstIsIt(name: string, alerts: seq<ChannelCounts>, rest: seq<Sample>, delivered: bool)
    requires alerts != [] && PlainText(alerts[0].channel)
    ensures FindValue(ReceivedAll(ByChannel(name, alerts)) + rest, name, Alerting(alerts[0].channel, OutcomeName(delivered)))
         == Finite(CountFor(alerts[0], delivered))
  {
    OutcomesApart();
    OutcomeLookup(name, alerts, rest, alerts[0].channel, OutcomeName(delivered));
  }

  lemma FirstIsNot(name: string, alerts: seq<ChannelCounts>, rest: seq<Sample>, wanted: string, asked: string)
    requires alerts != [] && PlainText(alerts[0].channel) && alerts[0].channel != wanted
    ensures FindValue(ReceivedAll(ByChannel(name, alerts)) + rest, name, Alerting(wanted, asked))
         == FindValue(ReceivedAll(ByChannel(name, alerts[1..])) + rest, name, Alerting(wanted, asked))
  {
    OutcomeLookup(name, alerts, rest, wanted, asked);
  }

  /** Channel `i` is listed for the first time, and all names up to it are plain. */
  predicate FirstListed(alerts: seq<ChannelCounts>, i: nat) {
    && i < |alerts|
    && (forall j :: 0 <= j <= i ==> PlainText(alerts[j].channel))
    && (forall j :: 0 <= j < i ==> alerts[j].channel != alerts[i].channel)
  }

  lemma FirstListedTail(alerts: seq<ChannelCounts>, i: nat)
    requires i > 0 && FirstListed(alerts, i)
    ensures PlainText(alerts[0].channel) && alerts[0].channel != alerts[i].channel
    ensures FirstListed(alerts[1..], i - 1) && alerts[1..][i - 1] == alerts[i]
  {
  }

  /** Then its own numbers are found. */
  lemma {:induction false} ChannelLookup(name: string, alerts: seq<ChannelCounts>, rest: seq<Sample>, i: nat, delivered: bool)
    requires FirstListed(alerts, i)
    ensures FindValue(ReceivedAll(ByChannel(name, alerts)) + rest, name, Alerting(alerts[i].channel, OutcomeName(delivered)))
         == Finite(CountFor(alerts[i], delivered))
  {
    if i == 0 {
      FirstIsIt(name, alerts, rest, delivered);
    } else {
      FirstListedTail(alerts, i);
      FirstIsNot(name, alerts, rest, alerts[i].channel, OutcomeName(delivered));
      ChannelLookup(name, alerts[1..], rest, i - 1, delivered);
    }
  }

  // ---------------------------------------------------------------- finding the block

  const FAMILIES: seq<string> := [
    "ims_signals_received_total", "ims_signals_accepted_total", "ims_signals_dropped_total", "ims_buffer_depth",
    "ims_buffer_fill_ratio", "ims_queue_depth", "ims_queue_dlq_size", "ims_queue_jobs_total", "ims_work_items",
    "ims_alerts_total", "ims_escalations_triggered_total"]

  lemma FamilyLengths()
    ensures |FAMILIES| == 11
    ensures |FAMILIES[0]| == 26 && |FAMILIES[1]| == 26 && |FAMILIES[2]| == 25 && |FAMILIES[3]| == 16 && |FAMILIES[4]| == 21
    ensures |FAMILIES[5]| == 15 && |FAMILIES[6]| == 18 && |FAMILIES[7]| == 20 && |FAMILIES[8]| == 14
    ensures |FAMILIES[9]| == 16 && |FAMILIES[10]| == 31
  {
  }

  lemma FamiliesApart(j: nat, i: nat)
    requires j < i < 11
    ensures FAMILIES[j] != FAMILIES[i]
  {
    FamilyLengths();
    assert "ims_signals_received_total"[12] == 'r' && "ims_signals_accepted_total"[12] == 'a';
    assert "ims_buffer_depth"[4] == 'b' && "ims_alerts_total"[4] == 'a';
  }

  lemma SignalFamilies(help: string -> string, m: MetricsSnapshot, i: nat)
    requires i < 5
    ensures SignalBlocks(help, m)[i].name == FAMILIES[i] && Uniform(SignalBlocks(help, m)[i])
  {
    var bs := SignalBlocks(help, m);
    if i == 2 {
      forall k | 0 <= k < |bs[2].samples| ensures bs[2].samples[k].name == FAMILIES[2] {
        DroppedAt(FAMILIES[2], m.dropped, k);
      }
    }
  }

  lemma QueueFamilies(help: string -> string, m: MetricsSnapshot, i: nat)
    requires i < 4
    ensures QueueBlocks(help, m)[i].name == FAMILIES[5 + i] && Uniform(QueueBlocks(help, m)[i])
  {
  }

  lemma AlertFamilies(help: string -> string, m: MetricsSnapshot, i: nat)
    requires i < 2
    ensures AlertBlocks(help, m)[i].name == FAMILIES[9 + i] && Uniform(AlertBlocks(help, m)[i])
  {
    ChannelsUniform("ims_alerts_total", m.alerts);
  }

  lemma BlockFamilies(help: string -> string, m: MetricsSnapshot, i: nat)
    requires i < 11
    ensures |Front(help, m)| == 11 && Front(help, m)[i].name == FAMILIES[i] && Uniform(Front(help, m)[i])
  {
    if i < 5 { SignalFamilies(help, m, i); }
    else if i < 9 { QueueFamilies(help, m, i - 5); }
    else { AlertFamilies(help, m, i - 9); }
  }

  lemma SamplesSplit(before: seq<Block>, own: Block, after: seq<Block>)
    ensures ReceivedAll(SamplesOf(before + ([own] + after)))
         == ReceivedAll(SamplesOf(before)) + (ReceivedAll(own.samples) + ReceivedAll(SamplesOf(after)))
  {
    SamplesOfConcat(before, [own] + after);
    assert ([own] + after)[1..] == after;
    ReceivedConcat(SamplesOf(before), own.samples + SamplesOf(after));
    ReceivedConcat(own.samples, SamplesOf(after));
  }

  lemma PageReceives(fmt: NumberFormat, help: string -> string, m: MetricsSnapshot)
    requires Printable(fmt, help, m)
    ensures ParseText(fmt, RenderMetrics(fmt, help, m)) == ReceivedAll(SamplesOf(Front(help, m) + LatencyBlocks(fmt, help, m)))
  {
    PageIsGood(fmt, help, m);
    PageReceived(fmt, BlocksOf(fmt, help, m));
  }

  lemma OthersSkipped(before: seq<Block>, es: seq<Emitted>, after: seq<Sample>, name: string)
    requires forall j :: 0 <= j < |before| ==> Uniform(before[j]) && before[j].name != name
    ensures forall filter :: FindValue(ReceivedAll(SamplesOf(before)) + (ReceivedAll(es) + after), name, filter)
                          == FindValue(ReceivedAll(es) + after, name, filter)
  {
    BlocksUnnamed(before, name);
    forall filter ensures FindValue(ReceivedAll(SamplesOf(before)) + (ReceivedAll(es) + after), name, filter)
                       == FindValue(ReceivedAll(es) + after, name, filter)
    {
      SkipUnnamed(SamplesOf(before), ReceivedAll(es) + after, name, filter);
    }
  }

  /** The two lists answer alike to every lookup of `name`. */
  ghost predicate Alike(scrape: seq<Sample>, own: seq<Sample>, name: string) {
    forall filter :: FindValue(scrape, name, filter) == FindValue(own, name, filter)
  }

  lemma FrontSplit(own: seq<Block>, last: seq<Block>, i: nat)
    requires i < |own|
    ensures own + last == own[..i] + ([own[i]] + (own[i + 1..] + last))
  {
  }

  /** Looking a family up on the page is looking it up from its own samples `es` on. */
  lemma FamilyLookup(fmt: NumberFormat, help: string -> string, m: MetricsSnapshot, i: nat, es: seq<Emitted>) returns (rest: seq<Sample>)
    requires Printable(fmt, help, m) && i < |Front(help, m)| == 11 && Front(help, m)[i].samples == es
    ensures Alike(ParseText(fmt, RenderMetrics(fmt, help, m)), ReceivedAll(es) + rest, FAMILIES[i])
  {
    var own, last := Front(help, m), LatencyBlocks(fmt, help, m);
    forall j | 0 <= j < i ensures Uniform(own[..i][j]) && own[..i][j].name != FAMILIES[i] {
      BlockFamilies(help, m, j);
      FamiliesApart(j, i);
    }
    PageReceives(fmt, help, m);
    FrontSplit(own, last, i);
    SamplesSplit(own[..i], own[i], own[i + 1..] + last);
    rest := ReceivedAll(SamplesOf(own[i + 1..] + last));
    OthersSkipped(own[..i], es, rest, FAMILIES[i]);
  }

  // ---------------------------------------------------------------- the page shows the snapshot

  /** The scrape answers every lookup of a signal or buffer number. */
  ghost predicate ShowsSignals(scrape: seq<Sample>, m: MetricsSnapshot) {
    && ShowsSeverities(scrape, "ims_signals_received_total", m.received)
    && ShowsSeverities(scrape, "ims_signals_accepted_total", m.accepted)
    && ShowsDrops(scrape, "ims_signals_dropped_total", m.dropped)
    && ShowsSeverities(scrape, "ims_buffer_depth", m.bufferDepth)
    && FindValue(scrape, "ims_buffer_fill_ratio", map[]) == Finite(m.bufferFill)
  }

  /** And of a queue, work-item or escalation number. */
  ghost predicate ShowsWork(scrape: seq<Sample>, m: MetricsSnapshot) {
    && FindValue(scrape, "ims_queue_depth", map["state" := "waiting"]) == Finite(m.queue.waiting)
    && FindValue(scrape, "ims_queue_depth", map["state" := "active"]) == Finite(m.queue.active)
    && FindValue(scrape, "ims_queue_dlq_size", map[]) == Finite(m.queue.dlq)
    && FindValue(scrape, "ims_queue_jobs_total", map["outcome" := "processed"]) == Finite(m.jobsProcessed)
    && FindValue(scrape, "ims_queue_jobs_total", map["outcome" := "failed"]) == Finite(m.jobsFailed)
    && ShowsStates(scrape, "ims_work_items", m.workItems)
    && FindValue(scrape, "ims_escalations_triggered_total", map[]) == Finite(m.escalations)
  }

  /** The samples of each family. */
  lemma FamilySamples(help: string -> string, m: MetricsSnapshot)
    ensures var own := Front(help, m);
      && |own| == 11
      && own[0].samples == BySeverity(FAMILIES[0], m.received)
      && own[1].samples == BySeverity(FAMILIES[1], m.accepted)
      && own[2].samples == Dropped(FAMILIES[2], m.dropped)
      && own[3].samples == BySeverity(FAMILIES[3], m.bufferDepth)
      && own[4].samples == Plainly(FAMILIES[4], m.bufferFill)
      && own[5].samples == ByTwo(FAMILIES[5], "state", "waiting", m.queue.waiting, "active", m.queue.active)
      && own[6].samples == Plainly(FAMILIES[6], m.queue.dlq)
      && own[7].samples == ByTwo(FAMILIES[7], "outcome", "processed", m.jobsProcessed, "failed", m.jobsFailed)
      && own[8].samples == ByState(FAMILIES[8], m.workItems)
      && own[9].samples == ByChannel(FAMILIES[9], m.alerts)
      && own[10].samples == Plainly(FAMILIES[10], m.escalations)
  {
  }

  lemma SeveritiesShown(fmt: NumberFormat, help: string -> string, m: MetricsSnapshot, i: nat, values: Severity -> real)
    requires Printable(fmt, help, m) && i < |Front(help, m)| == 11 && Front(help, m)[i].samples == BySeverity(FAMILIES[i], values)
    ensures ShowsSeverities(ParseText(fmt, RenderMetrics(fmt, help, m)), FAMILIES[i], values)
  {
    var rest := FamilyLookup(fmt, help, m, i, BySeverity(FAMILIES[i], values));
    BySeverityLookup(FAMILIES[i], values, rest);
    SeveritiesCarry(ParseText(fmt, RenderMetrics(fmt, help, m)), ReceivedAll(BySeverity(FAMILIES[i], values)) + rest, FAMILIES[i], values);
  }

  lemma SeveritiesCarry(scrape: seq<Sample>, own: seq<Sample>, name: string, values: Severity -> real)
    requires Alike(scrape, own, name) && ShowsSeverities(own, name, values)
    ensures ShowsSeverities(scrape, name, values)
  {
  }

  /** The three families with one number for each severity. */
  lemma SeverityFamiliesShown(fmt: NumberFormat, help: string -> string, m: MetricsSnapshot)
    requires Printable(fmt, help, m)
    ensures ShowsSeverities(ParseText(fmt, RenderMetrics(fmt, help, m)), FAMILIES[0], m.received)
    ensures ShowsSeverities(ParseText(fmt, RenderMetrics(fmt, help, m)), FAMILIES[1], m.accepted)
    ensures ShowsSeverities(ParseText(fmt, RenderMetrics(fmt, help, m)), FAMILIES[3], m.bufferDepth)
  {
    FamilySamples(help, m);
    SeveritiesShown(fmt, help, m, 0, m.received);
    SeveritiesShown(fmt, help, m, 1, m.accepted);
    SeveritiesShown(fmt, help, m, 3, m.bufferDepth);
  }

  /** The three families of one number. */
  lemma BareFamiliesShown(fmt: NumberFormat, help: string -> string, m: MetricsSnapshot)
    requires Printable(fmt, help, m)
    ensures FindValue(ParseText(fmt, RenderMetrics(fmt, help, m)), FAMILIES[4], map[]) == Finite(m.bufferFill)
    ensures FindValue(ParseText(fmt, RenderMetrics(fmt, help, m)), FAMILIES[6], map[]) == Finite(m.queue.dlq)
    ensures FindValue(ParseText(fmt, RenderMetrics(fmt, help, m)), FAMILIES[10], map[]) == Finite(m.escalations)
  {
    FamilySamples(help, m);
    PlainlyShown(fmt, help, m, 4, m.bufferFill);
    PlainlyShown(fmt, help, m, 6, m.queue.dlq);
    PlainlyShown(fmt, help, m, 10, m.escalations);
  }

  lemma PairsApart()
    ensures PlainKey("state") && PlainText("waiting") && PlainText("active") && "waiting" != "active"
    ensures PlainKey("outcome") && PlainText("processed") && PlainText("failed") && "processed" != "failed"
  {
    KeysAreLegal();
    assert |"waiting"| != |"active"| && |"processed"| != |"failed"|;
  }

  lemma QueueShown(fmt: NumberFormat, help: string -> string, m: MetricsSnapshot)
    requires Printable(fmt, help, m)
    ensures FindValue(ParseText(fmt, RenderMetrics(fmt, help, m)), FAMILIES[5], map["state" := "waiting"]) == Finite(m.queue.waiting)
    ensures FindValue(ParseText(fmt, RenderMetrics(fmt, help, m)), FAMILIES[5], map["state" := "active"]) == Finite(m.queue.active)
  {
    PairsApart();
    FamilySamples(help, m);
    PairShown(fmt, help, m, 5, "state", "waiting", m.queue.waiting, "active", m.queue.active);
  }

  lemma JobsShown(fmt: NumberFormat, help: string -> string, m: MetricsSnapshot)
    requires Printable(fmt, help, m)
    ensures FindValue(ParseText(fmt, RenderMetrics(fmt, help, m)), FAMILIES[7], map["outcome" := "processed"]) == Finite(m.jobsProcessed)
    ensures FindValue(ParseText(fmt, RenderMetrics(fmt, help, m)), FAMILIES[7], map["outcome" := "failed"]) == Finite(m.jobsFailed)
  {
    PairsApart();
    FamilySamples(help, m);
    PairShown(fmt, help, m, 7, "outcome", "processed", m.jobsProcessed, "failed", m.jobsFailed);
  }

  lemma DropsShown(fmt: NumberFormat, help: string -> string, m: MetricsSnapshot, s: Severity)
    requires Printable(fmt, help, m)
    ensures ShowsReasons(ParseText(fmt, RenderMetrics(fmt, help, m)), FAMILIES[2], SeverityName(s), m.dropped, s)
  {
    FamilySamples(help, m);
    var rest := FamilyLookup(fmt, help, m, 2, Dropped(FAMILIES[2], m.dropped));
    var scrape := ParseText(fmt, RenderMetrics(fmt, help, m));
    forall r ensures FindValue(scrape, FAMILIES[2], Dropping(SeverityName(s), ReasonName(r))) == Finite(m.dropped(s, r)) {
      DropFound(FAMILIES[2], m.dropped, rest, s, r);
    }
    ReasonsSpelled(scrape, FAMILIES[2], SeverityName(s), m.dropped, s);
  }

  lemma AllDropsShown(fmt: NumberFormat, help: string -> string, m: MetricsSnapshot)
    requires Printable(fmt, help, m)
    ensures ShowsDrops(ParseText(fmt, RenderMetrics(fmt, help, m)), FAMILIES[2], m.dropped)
  {
    var scrape := ParseText(fmt, RenderMetrics(fmt, help, m));
    forall s ensures ShowsReasons(scrape, FAMILIES[2], SeverityName(s), m.dropped, s) { DropsShown(fmt, help, m, s); }
    DropsSpelled(scrape, FAMILIES[2], m.dropped);
  }

  lemma PlainlyShown(fmt: NumberFormat, help: string -> string, m: MetricsSnapshot, i: nat, x: real)
    requires Printable(fmt, help, m) && i < |Front(help, m)| == 11 && Front(help, m)[i].samples == Plainly(FAMILIES[i], x)
    ensures FindValue(ParseText(fmt, RenderMetrics(fmt, help, m)), FAMILIES[i], map[]) == Finite(x)
  {
    var rest := FamilyLookup(fmt, help, m, i, Plainly(FAMILIES[i], x));
    PlainlyLookup(FAMILIES[i], x, rest);
  }

  lemma PairShown(fmt: NumberFormat, help: string -> string, m: MetricsSnapshot, i: nat, key: string, first: string, x: real, second: string, y: real)
    requires Printable(fmt, help, m) && PlainKey(key) && PlainText(first) && PlainText(second) && first != second
    requires i < |Front(help, m)| == 11 && Front(help, m)[i].samples == ByTwo(FAMILIES[i], key, first, x, second, y)
    ensures FindValue(ParseText(fmt, RenderMetrics(fmt, help, m)), FAMILIES[i], map[key := first]) == Finite(x)
    ensures FindValue(ParseText(fmt, RenderMetrics(fmt, help, m)), FAMILIES[i], map[key := second]) == Finite(y)
  {
    var rest := FamilyLookup(fmt, help, m, i, ByTwo(FAMILIES[i], key, first, x, second, y));
    ByTwoLookup(FAMILIES[i], key, first, x, second, y, rest);
  }

  lemma StatesShown(fmt: NumberFormat, help: string -> string, m: MetricsSnapshot)
    requires Printable(fmt, help, m)
    ensures ShowsStates(ParseText(fmt, RenderMetrics(fmt, help, m)), FAMILIES[8], m.workItems)
  {
    FamilySamples(help, m);
    var rest := FamilyLookup(fmt, help, m, 8, ByState(FAMILIES[8], m.workItems));
    var scrape := ParseText(fmt, RenderMetrics(fmt, help, m));
    forall t ensures FindValue(scrape, FAMILIES[8], One("state", StateName(t))) == Finite(m.workItems(t)) {
      StateLookup(FAMILIES[8], m.workItems, rest, t);
    }
    StatesSpelled(scrape, FAMILIES[8], m.workItems);
  }

  lemma SignalsSpelled(scrape: seq<Sample>, m: MetricsSnapshot)
    requires ShowsSeverities(scrape, FAMILIES[0], m.received) && ShowsSeverities(scrape, FAMILIES[1], m.accepted)
    requires ShowsDrops(scrape, FAMILIES[2], m.dropped) && ShowsSeverities(scrape, FAMILIES[3], m.bufferDepth)
    requires FindValue(scrape, FAMILIES[4], map[]) == Finite(m.bufferFill)
    ensures ShowsSignals(scrape, m)
  {
  }

  /** Every lookup of a signal or buffer number on the scraped page returns the snapshot's own, whatever the channels are called. */
  lemma SignalsShown(fmt: NumberFormat, help: string -> string, m: MetricsSnapshot)
    requires Printable(fmt, help, m)
    ensures ShowsSignals(ParseText(fmt, RenderMetrics(fmt, help, m)), m)
  {
    SeverityFamiliesShown(fmt, help, m);
    BareFamiliesShown(fmt, help, m);
    AllDropsShown(fmt, help, m);
    SignalsSpelled(ParseText(fmt, RenderMetrics(fmt, help, m)), m);
  }

  /** So does every lookup of a queue, work-item or escalation number. */
  lemma WorkShown(fmt: NumberFormat, help: string -> string, m: MetricsSnapshot)
    requires Printable(fmt, help, m)
    ensures ShowsWork(ParseText(fmt, RenderMetrics(fmt, help, m)), m)
  {
    QueueShown(fmt, help, m);
    JobsShown(fmt, help, m);
    StatesShown(fmt, help, m);
    BareFamiliesShown(fmt, help, m);
  }

  /** A channel's numbers are found if its name and those before it are plain and it is listed once. */
  lemma ChannelShown(fmt: NumberFormat, help: string -> string, m: MetricsSnapshot, i: nat)
    requires Printable(fmt, help, m) && FirstListed(m.alerts, i)
    ensures var scrape := ParseText(fmt, RenderMetrics(fmt, help, m));
      && FindValue(scrape, "ims_alerts_total", map["channel" := m.alerts[i].channel, "outcome" := "delivered"]) == Finite(m.alerts[i].delivered)
      && FindValue(scrape, "ims_alerts_total", map["channel" := m.alerts[i].channel, "outcome" := "failed"]) == Finite(m.alerts[i].failed)
  {
    FamilySamples(help, m);
    var rest := FamilyLookup(fmt, help, m, 9, ByChannel(FAMILIES[9], m.alerts));
    ChannelLookup(FAMILIES[9], m.alerts, rest, i, true);
    ChannelLookup(FAMILIES[9], m.alerts, rest, i, false);
  }

  // ---------------------------------------------------------------- the kinds

  predicate EndsWith(s: string, tail: string) { |tail| <= |s| && s[|s| - |tail|..] == tail }

  predicate KindFits(b: Block) {
    && (b.kind == "counter" <==> EndsWith(b.name, "_total"))
    && (b.kind == "histogram" <==> b.name == LATENCY)
    && (b.kind == "counter" || b.kind == "histogram" || b.kind == "gauge")
  }

  lemma SignalKinds(help: string -> string, m: MetricsSnapshot)
    ensures forall i :: 0 <= i < 5 ==> KindFits(SignalBlocks(help, m)[i])
  {
    var bs := SignalBlocks(help, m);
    LatencyLength();
    forall i | 0 <= i < 5 ensures KindFits(bs[i]) {
      SignalFamilies(help, m, i);
      FamilyLengths();
    }
  }

  lemma QueueKinds(help: string -> string, m: MetricsSnapshot)
    ensures forall i :: 0 <= i < 4 ==> KindFits(QueueBlocks(help, m)[i])
  {
    LatencyLength();
  }

  lemma OtherKinds(fmt: NumberFormat, help: string -> string, m: MetricsSnapshot)
    ensures forall i :: 0 <= i < 2 ==> KindFits(AlertBlocks(help, m)[i])
    ensures KindFits(LatencyBlocks(fmt, help, m)[0])
  {
    LatencyLength();
  }

  lemma LatencyLength()
    ensures |LATENCY| == 25 && !EndsWith(LATENCY, "_total")
    ensures "counter" != "gauge" && "counter" != "histogram" && "gauge" != "histogram"
  {
    assert LATENCY[24] == 's' && |"counter"| == 7 && |"gauge"| == 5 && |"histogram"| == 9;
  }

  /** A family is declared a counter exactly if its name ends in `_total`, and only the latency is a histogram. */
  lemma KindsFollowNames(fmt: NumberFormat, help: string -> string, m: MetricsSnapshot, i: nat)
    requires i < 12
    ensures |BlocksOf(fmt, help, m)| == 12
    ensures var b := BlocksOf(fmt, help, m)[i];
      && (b.kind == "counter" <==> EndsWith(b.name, "_total"))
      && (b.kind == "histogram" <==> b.name == "ims_signal_e2e_latency_ms")
      && (b.kind == "counter" || b.kind == "histogram" || b.kind == "gauge")
  {
    SignalKinds(help, m);
    QueueKinds(help, m);
    OtherKinds(fmt, help, m);
    var b := BlocksOf(fmt, help, m)[i];
    assert KindFits(b) by {
      if i < 5 { assert b == SignalBlocks(help, m)[i]; }
      else if i < 9 { assert b == QueueBlocks(help, m)[i - 5]; }
      else if i < 11 { assert b == AlertBlocks(help, m)[i - 9]; }
    }
  }
}
