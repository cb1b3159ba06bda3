/** What the parser makes of a rendered page, for every page the printer can produce. */
module PrometheusRoundTrip {
  import opened JsNumbers
  import opened JsText
  import opened Options
  import opened PrometheusText

  // ---------------------------------------------------------------- what the printer is given

  predicate IsKey(k: string) {
    k != "" && IsLetter(k[0]) && forall i :: 0 <= i < |k| ==> IsKeyChar(k[i])
  }

  predicate IsMetricName(n: string) {
    n != "" && IsNameStart(n[0]) && forall i :: 0 <= i < |n| ==> IsNameChar(n[i])
  }

  /** The keys of an object literal: identifiers, no two alike. */
  predicate GoodKeys(ls: seq<Label>) {
    && (forall i :: 0 <= i < |ls| ==> IsKey(ls[i].key))
    && forall i, j :: 0 <= i < j < |ls| ==> ls[i].key != ls[j].key
  }

  predicate WellFormed(fmt: NumberFormat, e: Emitted) {
    IsMetricName(e.name) && GoodKeys(e.labels) && Prints(fmt, e.value)
  }

  predicate AllWellFormed(fmt: NumberFormat, es: seq<Emitted>) {
    forall i :: 0 <= i < |es| ==> WellFormed(fmt, es[i])
  }

  predicate OneLine(s: string) { '\n' !in s }

  predicate GoodBlock(fmt: NumberFormat, b: Block) {
    OneLine(b.name) && OneLine(b.help) && OneLine(b.kind) && AllWellFormed(fmt, b.samples)
  }

  predicate GoodPage(fmt: NumberFormat, bs: seq<Block>) {
    forall i :: 0 <= i < |bs| ==> GoodBlock(fmt, bs[i])
  }

  predicate BraceFree(ls: seq<Label>) {
    forall i :: 0 <= i < |ls| ==> '}' !in ls[i].value
  }

  predicate FeedFree(ls: seq<Label>) {
    forall i :: 0 <= i < |ls| ==> '\n' !in ls[i].value
  }

  /** Every sample of the page, in order. */
  function SamplesOf(bs: seq<Block>): seq<Emitted> {
    if bs == [] then [] else bs[0].samples + SamplesOf(bs[1..])
  }

  // ---------------------------------------------------------------- what should come back

  function LabelMap(ls: seq<Label>, m: map<string, string>): map<string, string> {
    if ls == [] then m else LabelMap(ls[1..], m[ls[0].key := ls[0].value])
  }

  /** What is left of the labels on a plain object. */
  function Assigned(ls: seq<Label>, m: map<string, string>): map<string, string> {
    if ls == [] then m else Assigned(ls[1..], Assign(m, ls[0].key, ls[0].value))
  }

  function Spelled(ls: seq<Label>): seq<Label> {
    if ls == [] then [] else [Label(ls[0].key, LineFeedsSpelled(ls[0].value))] + Spelled(ls[1..])
  }

  /** The sample as it was emitted. */
  function Meant(e: Emitted): Sample { Sample(e.name, LabelMap(e.labels, map[]), Finite(e.value)) }

  function MeantAll(es: seq<Emitted>): seq<Sample> {
    if es == [] then [] else [Meant(es[0])] + MeantAll(es[1..])
  }

  /** The sample of a line that matches: line feeds spelled out, a label named like the prototype lost. */
  function Read(e: Emitted): Sample { Sample(e.name, Assigned(Spelled(e.labels), map[]), Finite(e.value)) }

  /** What is read back: nothing if a label value holds `}`, otherwise the sample as read. */
  function Received(e: Emitted): seq<Sample> {
    if BraceFree(e.labels) then [Read(e)] else []
  }

  function ReceivedAll(es: seq<Emitted>): seq<Sample> {
    if es == [] then [] else Received(es[0]) + ReceivedAll(es[1..])
  }

  // ---------------------------------------------------------------- label pairs

  lemma {:induction false} RunExact(p: char -> bool, k: string, t: string)
    requires forall i :: 0 <= i < |k| ==> p(k[i])
    requires t == "" || !p(t[0])
    ensures Run(p, k + t) == |k|
  {
    var n := Run(p, k + t);
    assert forall i :: 0 <= i < |k| ==> (k + t)[i] == k[i];
    assert n >= |k|;
    assert t != "" ==> (k + t)[|k|] == t[0];
  }

  lemma ScanPair(x: char, s: string)
    requires !IsLineEnd(x)
    ensures var r := ScanBody(s);
      ScanBody(['\\', x] + s) == if r.None? then None else Some((['\\', x] + r.value.0, r.value.1))
  {
    var t := ['\\', x] + s;
    assert t[0] == '\\' && t[1] == x && t[2..] == s && t[..2] == ['\\', x];
  }

  lemma ScanPlain(x: char, s: string)
    requires x != '\\' && x != '\"'
    ensures var r := ScanBody(s);
      ScanBody([x] + s) == if r.None? then None else Some(([x] + r.value.0, r.value.1))
  {
    var t := [x] + s;
    assert t[0] == x && t[1..] == s && t[..1] == [x];
  }

  lemma ScanChar(c: char, s: string)
    ensures var r := ScanBody(s);
      ScanBody(EscapeChar(c) + s) == if r.None? then None else Some((EscapeChar(c) + r.value.0, r.value.1))
  {
    var e := EscapeChar(c);
    if |e| == 2 {
      assert e == ['\\', e[1]];
      ScanPair(e[1], s);
    } else {
      ScanPlain(c, s);
    }
  }

  /** The body pattern stops exactly at the printer's closing quote, whatever quotes the value holds. */
  lemma {:induction false} ScanEscaped(v: string, more: string)
    ensures ScanBody(EscapeEach(v) + ("\"" + more)) == Some((EscapeEach(v), more))
  {
    var rest := "\"" + more;
    if v == "" {
      assert EscapeEach(v) + rest == rest;
      assert rest[0] == '\"' && rest[1..] == more;
    } else {
      ScanEscaped(v[1..], more);
      ScanChar(v[0], EscapeEach(v[1..]) + rest);
      Regrouped(EscapeChar(v[0]), EscapeEach(v[1..]), rest);
    }
  }

  lemma MatchKey(k: string, body: string)
    requires IsKey(k)
    ensures var r := ScanBody(body);
      MatchPair(k + ("=\"" + body)) == if r.None? then None else Some((k, r.value.0, r.value.1))
  {
    var s := k + ("=\"" + body);
    RunExact(IsKeyChar, k, "=\"" + body);
    assert s[..|k|] == k && s[|k| + 2..] == body;
    assert s[0] == k[0] && s[|k|] == '=' && s[|k| + 1] == '\"';
  }

  lemma MatchRendered(l: Label, more: string)
    requires IsKey(l.key)
    ensures MatchPair(RenderLabel(l) + more) == Some((l.key, Escape(l.value), more))
  {
    EscapeIsEach(l.value);
    ScanEscaped(l.value, more);
    var body := EscapeEach(l.value) + ("\"" + more);
    assert RenderLabel(l) + more == l.key + ("=\"" + body);
    MatchKey(l.key, body);
  }

  lemma SeparatorSkipped(s: string, m: map<string, string>)
    ensures ParsePairs("," + s, m) == ParsePairs(s, m)
  {
    assert ("," + s)[0] == ',' && ("," + s)[1..] == s;
    assert Run(IsKeyChar, "," + s) == 0;
  }

  lemma {:induction false} ParseJoined(ls: seq<Label>, m: map<string, string>)
    requires forall i :: 0 <= i < |ls| ==> IsKey(ls[i].key)
    ensures ParsePairs(Join(RenderEach(ls), ","), m) == Assigned(Spelled(ls), m)
  {
    if ls != [] {
      var l := ls[0];
      var m' := Assign(m, l.key, LineFeedsSpelled(l.value));
      var joined := Join(RenderEach(ls), ",");
      var tail := Join(RenderEach(ls[1..]), ",");
      ParseJoined(ls[1..], m');
      UnescapeOfEscape(l.value);
      assert Spelled(ls)[1..] == Spelled(ls[1..]);
      assert RenderEach(ls)[1..] == RenderEach(ls[1..]);
      if |ls| == 1 {
        MatchRendered(l, "");
        assert joined == RenderLabel(l) + "";
      } else {
        MatchRendered(l, "," + tail);
        assert |RenderEach(ls)| != 1 by { assert RenderEach(ls[1..]) != []; }
        assert joined == RenderLabel(l) + ("," + tail);
        SeparatorSkipped(tail, m');
      }
    }
  }

  // ---------------------------------------------------------------- braces and line feeds in a line

  lemma {:induction false} EscapeKeeps(v: string, c: char)
    requires c == '}'
    ensures c in Escape(v) <==> c in v
  {
    EscapeIsEach(v);
    if v != "" {
      EscapeKeeps(v[1..], c);
      EscapeIsEach(v[1..]);
      assert c in v <==> c == v[0] || c in v[1..];
      assert c in EscapeEach(v) <==> c in EscapeChar(v[0]) || c in EscapeEach(v[1..]);
    }
  }

  lemma {:induction false} EscapeIsOneLine(v: string)
    ensures OneLine(Escape(v))
  {
    EscapeIsEach(v);
    if v != "" {
      EscapeIsOneLine(v[1..]);
      EscapeIsEach(v[1..]);
    }
  }

  lemma KeyIsPlain(k: string)
    requires IsKey(k)
    ensures '}' !in k && OneLine(k)
  {
    forall i | 0 <= i < |k| ensures k[i] != '}' && k[i] != '\n' { assert IsKeyChar(k[i]); }
  }

  lemma LabelText(l: Label)
    requires IsKey(l.key)
    ensures '}' in RenderLabel(l) <==> '}' in l.value
    ensures OneLine(RenderLabel(l))
    ensures RenderLabel(l)[|RenderLabel(l)| - 1] == '\"'
  {
    KeyIsPlain(l.key);
    EscapeKeeps(l.value, '}');
    EscapeIsOneLine(l.value);
  }

  /** The text between the braces is one line, closes with a quote, and holds `}` just when some value does. */
  lemma {:induction false} LabelsText(ls: seq<Label>)
    requires ls != [] && forall i :: 0 <= i < |ls| ==> IsKey(ls[i].key)
    ensures var t := Join(RenderEach(ls), ",");
      t != "" && t[|t| - 1] == '\"' && OneLine(t) && ('}' in t <==> !BraceFree(ls))
  {
    var t := Join(RenderEach(ls), ",");
    LabelText(ls[0]);
    assert RenderEach(ls)[1..] == RenderEach(ls[1..]);
    if |ls| == 1 {
      assert t == RenderLabel(ls[0]);
    } else {
      LabelsText(ls[1..]);
      var tail := Join(RenderEach(ls[1..]), ",");
      assert |RenderEach(ls)| != 1 by { assert RenderEach(ls[1..]) != []; }
      assert t == RenderLabel(ls[0]) + "," + tail;
      assert t[|t| - 1] == tail[|tail| - 1];
      assert BraceFree(ls) <==> '}' !in ls[0].value && BraceFree(ls[1..]) by {
        assert BraceFree(ls) ==> BraceFree(ls[1..]);
        assert forall i :: 1 <= i < |ls| ==> ls[i] == ls[1..][i - 1];
      }
    }
  }

  // ---------------------------------------------------------------- one line

  lemma TokenFound(tok: string)
    requires tok != "" && NoSpace(tok)
    ensures ValueToken(" " + tok) == Some(tok)
  {
    RunExact(IsSpace, " ", tok);
    RunExact(IsSolid, tok, "");
    assert (" " + tok)[1..] == tok && tok + "" == tok && tok[|tok|..] == "";
  }

  /** A brace left over in front of the value spoils the match: the line no longer ends in one token. */
  lemma TokenSpoiled(x: string, tok: string)
    requires x != "" && !IsSpace(x[|x| - 1]) && tok != "" && NoSpace(tok)
    ensures ValueToken(x + "} " + tok) == None
  {
    var s := x + "} " + tok;
    var a := Run(IsSpace, s);
    assert s[|x| - 1] == x[|x| - 1];
    assert a <= |x| - 1;
    var t := s[a..];
    var b := Run(IsSolid, t);
    var gap := |x| + 1 - a;
    assert t[gap] == s[|x| + 1] == ' ';
    assert b <= gap;
    var rest := t[b..];
    assert rest[|rest| - 1] == s[|s| - 1] == tok[|tok| - 1];
    assert Run(IsSpace, rest) < |rest|;
  }

  lemma NameRuns(name: string, rest: string)
    requires IsMetricName(name) && rest != "" && !IsNameChar(rest[0])
    ensures var s := name + rest;
      Run(IsNameChar, s) == |name| && s[..|name|] == name && s[|name|..] == rest && s[0] == name[0]
  {
    RunExact(IsNameChar, name, rest);
  }

  lemma FindFirst(s: string, c: char, k: nat)
    requires k < |s| && s[k] == c && c !in s[..k]
    ensures Find(s, c) == Some(k)
  {
    var i := Find(s, c);
    assert i.Some?;
    assert forall j :: 0 <= j < i.value ==> s[j] == s[..i.value][j] != c;
    assert forall j :: 0 <= j < k ==> s[j] == s[..k][j] != c;
  }

  lemma BareLine(name: string, tok: string)
    requires IsMetricName(name) && tok != "" && NoSpace(tok)
    ensures MatchLine(name + " " + tok) == Some(Line(name, "", tok))
  {
    assert name + " " + tok == name + (" " + tok);
    NameRuns(name, " " + tok);
    TokenFound(tok);
  }

  lemma OpenedLine(name: string, inner: string)
    requires IsMetricName(name)
    ensures MatchLine(name + ("{" + inner)) == MatchBraces(name, inner)
  {
    NameRuns(name, "{" + inner);
    assert (name + ("{" + inner))[|name| + 1..] == inner;
  }

  lemma Regroup(name: string, text: string, tok: string)
    ensures name + ("{" + text + "}") + " " + tok == name + ("{" + (text + ("}" + (" " + tok))))
  {
  }

  lemma BracesMatch(name: string, text: string, tok: string)
    requires tok != "" && NoSpace(tok) && '}' !in text
    ensures MatchBraces(name, text + ("}" + (" " + tok))) == Some(Line(name, text, tok))
  {
    var tail := " " + tok;
    var inner := text + ("}" + tail);
    assert inner[..|text|] == text;
    FindFirst(inner, '}', |text|);
    assert inner[|text| + 1..] == tail;
    TokenFound(tok);
  }

  lemma LabelledLine(name: string, text: string, tok: string)
    requires IsMetricName(name) && tok != "" && NoSpace(tok)
    requires '}' !in text
    ensures MatchLine(name + ("{" + text + "}") + " " + tok) == Some(Line(name, text, tok))
  {
    Regroup(name, text, tok);
    OpenedLine(name, text + ("}" + (" " + tok)));
    BracesMatch(name, text, tok);
  }

  /** With a `}` in the label text the line matches nothing at all. */
  lemma BrokenLine(name: string, text: string, tok: string)
    requires IsMetricName(name) && tok != "" && NoSpace(tok)
    requires '}' in text && !IsSpace(text[|text| - 1])
    ensures MatchLine(name + ("{" + text + "}") + " " + tok) == None
  {
    Regroup(name, text, tok);
    OpenedLine(name, text + ("}" + (" " + tok)));
    var j :| 0 <= j < |text| && text[j] == '}';
    var k := FirstBrace(text, " " + tok, j);
    BraceBeforeEnd(text, tok, k);
  }

  lemma FirstBrace(text: string, more: string, j: nat) returns (k: nat)
    requires j < |text| && text[j] == '}'
    ensures k < |text| && text[k] == '}' && Find(text + ("}" + more), '}') == Some(k)
  {
    var inner := text + ("}" + more);
    assert inner[j] == '}';
    var at := Find(inner, '}');
    assert forall i :: 0 <= i < at.value ==> inner[i] == inner[..at.value][i] != '}';
    k := at.value;
  }

  lemma BraceBeforeEnd(text: string, tok: string, k: nat)
    requires tok != "" && NoSpace(tok)
    requires k < |text| && text[k] == '}' && !IsSpace(text[|text| - 1])
    ensures ValueToken((text + ("}" + (" " + tok)))[k + 1..]) == None
  {
    var x := text[k + 1..];
    assert (text + ("}" + (" " + tok)))[k + 1..] == x + "} " + tok;
    if x != "" {
      TokenSpoiled(x, tok);
    }
  }

  lemma NameIsOneLine(n: string)
    requires IsMetricName(n)
    ensures OneLine(n)
  {
    forall i | 0 <= i < |n| ensures n[i] != '\n' { assert IsNameChar(n[i]); }
  }

  lemma TokenIsOneLine(s: string)
    requires NoSpace(s)
    ensures OneLine(s)
  {
    forall i | 0 <= i < |s| ensures s[i] != '\n' { assert !IsSpace(s[i]); }
  }

  lemma RenderedIsOneLine(fmt: NumberFormat, e: Emitted)
    requires WellFormed(fmt, e)
    ensures OneLine(RenderSample(fmt, e))
  {
    NameIsOneLine(e.name);
    TokenIsOneLine(fmt.show(e.value));
    if e.labels != [] { LabelsText(e.labels); }
  }

  /** One printed sample reads back as `Received` says. */
  lemma SampleReceived(fmt: NumberFormat, e: Emitted)
    requires WellFormed(fmt, e)
    ensures ParseLine(fmt, RenderSample(fmt, e)) == Received(e)
  {
    var tok := fmt.show(e.value);
    var line := RenderSample(fmt, e);
    assert line[0] == e.name[0] != '#';
    if e.labels == [] {
      assert line == e.name + " " + tok;
      BareLine(e.name, tok);
    } else {
      var text := Join(RenderEach(e.labels), ",");
      LabelsText(e.labels);
      if BraceFree(e.labels) {
        LabelledLine(e.name, text, tok);
        ParseJoined(e.labels, map[]);
      } else {
        BrokenLine(e.name, text, tok);
      }
    }
  }

  // ---------------------------------------------------------------- the whole page

  /** What one more character in front does to the lines of a text. */
  function Push(x: char, lines: seq<string>): seq<string>
    requires lines != []
  {
    if x == '\n' then [""] + lines else [[x] + lines[0]] + lines[1..]
  }

  lemma SplitStep(x: char, s: string)
    ensures Split([x] + s) == Push(x, Split(s))
  {
    assert ([x] + s)[0] == x && ([x] + s)[1..] == s;
  }

  lemma PushConcat(x: char, r: seq<string>, t: seq<string>)
    requires r != []
    ensures Push(x, r + t) == Push(x, r) + t
  {
    assert (r + t)[1..] == r[1..] + t;
  }

  lemma {:induction false} SplitConcat(a: string, b: string)
    ensures Split(a + ("\n" + b)) == Split(a) + Split(b)
  {
    var rest := "\n" + b;
    if a == "" {
      SplitStep('\n', b);
      assert a + rest == ['\n'] + b;
    } else {
      SplitConcat(a[1..], b);
      assert a == [a[0]] + a[1..];
      assert a + rest == [a[0]] + (a[1..] + rest);
      SplitStep(a[0], a[1..]);
      SplitStep(a[0], a[1..] + rest);
      PushConcat(a[0], Split(a[1..]), Split(b));
    }
  }

  lemma {:induction false} SplitOneLine(a: string)
    requires OneLine(a)
    ensures Split(a) == [a]
  {
    if a != "" {
      SplitOneLine(a[1..]);
      assert a == [a[0]] + a[1..];
    }
  }

  lemma TextConcat(fmt: NumberFormat, a: string, b: string)
    ensures ParseText(fmt, a + "\n" + b) == ParseText(fmt, a) + ParseText(fmt, b)
  {
    Regrouped(a, "\n", b);
    SplitConcat(a, b);
    ParseLinesConcat(fmt, Split(a), Split(b));
  }

  lemma OneLineText(fmt: NumberFormat, a: string)
    requires OneLine(a)
    ensures ParseText(fmt, a) == ParseLine(fmt, a)
  {
    SplitOneLine(a);
    assert ParseLines(fmt, [a]) == ParseLine(fmt, a) + ParseLines(fmt, []);
  }

  /** A line put in front of others contributes on its own. */
  lemma LineFirst(fmt: NumberFormat, line: string, lines: seq<string>)
    requires OneLine(line) && lines != []
    ensures ParseText(fmt, Join([line] + lines, "\n")) == ParseLine(fmt, line) + ParseText(fmt, Join(lines, "\n"))
  {
    assert ([line] + lines)[1..] == lines;
    OneLineText(fmt, line);
    TextConcat(fmt, line, Join(lines, "\n"));
  }

  lemma {:induction false} SamplesReceived(fmt: NumberFormat, es: seq<Emitted>)
    requires es != [] && AllWellFormed(fmt, es)
    ensures ParseText(fmt, Join(RenderSamples(fmt, es), "\n")) == ReceivedAll(es)
  {
    var line := RenderSample(fmt, es[0]);
    var lines := RenderSamples(fmt, es[1..]);
    RenderedIsOneLine(fmt, es[0]);
    SampleReceived(fmt, es[0]);
    if |es| == 1 {
      OneLineText(fmt, line);
      assert RenderSamples(fmt, es) == [line];
      assert ReceivedAll(es) == Received(es[0]) + [];
    } else {
      SamplesReceived(fmt, es[1..]);
      LineFirst(fmt, line, lines);
    }
  }

  lemma BlockReceived(fmt: NumberFormat, b: Block)
    requires GoodBlock(fmt, b)
    ensures ParseText(fmt, Join(BlockLines(fmt, b), "\n")) == ReceivedAll(b.samples)
  {
    var help := "# HELP " + b.name + " " + b.help;
    var kind := "# TYPE " + b.name + " " + b.kind;
    var lines := RenderSamples(fmt, b.samples);
    assert help[0] == '#' && kind[0] == '#';
    assert BlockLines(fmt, b) == [help] + ([kind] + lines);
    LineFirst(fmt, help, [kind] + lines);
    if b.samples == [] {
      OneLineText(fmt, kind);
      assert [kind] + lines == [kind];
    } else {
      SamplesReceived(fmt, b.samples);
      LineFirst(fmt, kind, lines);
    }
  }

  lemma {:induction false} ReceivedConcat(a: seq<Emitted>, b: seq<Emitted>)
    ensures ReceivedAll(a + b) == ReceivedAll(a) + ReceivedAll(b)
  {
    if a == [] {
      assert a + b == b;
    } else {
      assert (a + b)[1..] == a[1..] + b;
      ReceivedConcat(a[1..], b);
    }
  }

  lemma GapConcat(fmt: NumberFormat, a: string, b: string)
    ensures ParseText(fmt, a + "\n\n" + b) == ParseText(fmt, a) + ParseText(fmt, b)
  {
    assert a + "\n\n" + b == a + "\n" + ("" + "\n" + b);
    TextConcat(fmt, "", b);
    OneLineText(fmt, "");
    TextConcat(fmt, a, "" + "\n" + b);
  }

  lemma {:induction false} BlocksReceived(fmt: NumberFormat, bs: seq<Block>)
    requires bs != [] && GoodPage(fmt, bs)
    ensures ParseText(fmt, Join(RenderBlocks(fmt, bs), "\n\n")) == ReceivedAll(SamplesOf(bs))
  {
    var parts := RenderBlocks(fmt, bs);
    BlockReceived(fmt, bs[0]);
    var tail := RenderBlocks(fmt, bs[1..]);
    assert parts == [parts[0]] + tail;
    assert parts[1..] == tail;
    ReceivedConcat(bs[0].samples, SamplesOf(bs[1..]));
    if |bs| == 1 {
      assert SamplesOf(bs[1..]) == [];
      assert bs[0].samples + [] == bs[0].samples;
    } else {
      BlocksReceived(fmt, bs[1..]);
      assert tail != [];
      GapConcat(fmt, parts[0], Join(tail, "\n\n"));
    }
  }

  /** Reading a rendered page gives, in order, exactly what each sample's labels let through. */
  lemma PageReceived(fmt: NumberFormat, bs: seq<Block>)
    requires bs != [] && GoodPage(fmt, bs)
    ensures ParseText(fmt, RenderPage(fmt, bs)) == ReceivedAll(SamplesOf(bs))
  {
    var text := Join(RenderBlocks(fmt, bs), "\n\n");
    BlocksReceived(fmt, bs);
    OneLineText(fmt, "");
    assert RenderPage(fmt, bs) == text + "\n" + "";
    TextConcat(fmt, text, "");
  }

  // ---------------------------------------------------------------- when that is the identity

  lemma {:induction false} SpelledAt(ls: seq<Label>)
    ensures |Spelled(ls)| == |ls|
    ensures forall i :: 0 <= i < |ls| ==> Spelled(ls)[i] == Label(ls[i].key, LineFeedsSpelled(ls[i].value))
  {
    if ls != [] {
      SpelledAt(ls[1..]);
      forall i | 1 <= i < |ls| ensures Spelled(ls)[i] == Label(ls[i].key, LineFeedsSpelled(ls[i].value)) {
        assert Spelled(ls)[i] == Spelled(ls[1..])[i - 1] && ls[i] == ls[1..][i - 1];
      }
    }
  }

  lemma {:induction false} LabelMapKeeps(ls: seq<Label>, m: map<string, string>, k: string)
    requires k in m && forall i :: 0 <= i < |ls| ==> ls[i].key != k
    ensures k in LabelMap(ls, m) && LabelMap(ls, m)[k] == m[k]
  {
    if ls != [] { LabelMapKeeps(ls[1..], m[ls[0].key := ls[0].value], k); }
  }

  lemma {:induction false} LabelMapAt(ls: seq<Label>, m: map<string, string>, i: nat)
    requires GoodKeys(ls) && i < |ls|
    ensures ls[i].key in LabelMap(ls, m) && LabelMap(ls, m)[ls[i].key] == ls[i].value
  {
    var m' := m[ls[0].key := ls[0].value];
    if i == 0 {
      LabelMapKeeps(ls[1..], m', ls[0].key);
    } else {
      assert GoodKeys(ls[1..]);
      LabelMapAt(ls[1..], m', i - 1);
    }
  }

  lemma SpelledIsSame(ls: seq<Label>)
    ensures FeedFree(ls) ==> Spelled(ls) == ls
  {
    SpelledAt(ls);
    if FeedFree(ls) {
      forall i | 0 <= i < |ls| ensures Spelled(ls)[i] == ls[i] { SpelledSame(ls[i].value); }
    }
  }

  lemma SpelledDiffers(ls: seq<Label>, m: map<string, string>)
    requires GoodKeys(ls) && LabelMap(Spelled(ls), m) == LabelMap(ls, m)
    ensures FeedFree(ls)
  {
    SpelledAt(ls);
    forall i | 0 <= i < |ls| ensures '\n' !in ls[i].value {
      LabelMapAt(ls, m, i);
      LabelMapAt(Spelled(ls), m, i);
      SpelledHasNone(ls[i].value);
    }
  }

  predicate ProtoFree(ls: seq<Label>) {
    forall i :: 0 <= i < |ls| ==> ls[i].key != PROTO
  }

  lemma {:induction false} AssignedIsMap(ls: seq<Label>, m: map<string, string>)
    requires ProtoFree(ls)
    ensures Assigned(ls, m) == LabelMap(ls, m)
  {
    if ls != [] { AssignedIsMap(ls[1..], m[ls[0].key := ls[0].value]); }
  }

  lemma {:induction false} AssignedLacks(ls: seq<Label>, m: map<string, string>)
    requires PROTO !in m
    ensures PROTO !in Assigned(ls, m)
  {
    if ls != [] { AssignedLacks(ls[1..], Assign(m, ls[0].key, ls[0].value)); }
  }

  /**
   * A label survives the page exactly when its value holds neither a line feed nor `}`
   * and its key is not the one a plain object keeps for its prototype.
   */
  predicate Plain(e: Emitted) { FeedFree(e.labels) && BraceFree(e.labels) && ProtoFree(e.labels) }

  lemma SurvivorIsProtoFree(ls: seq<Label>)
    requires GoodKeys(ls) && Assigned(Spelled(ls), map[]) == LabelMap(ls, map[])
    ensures ProtoFree(ls)
  {
    AssignedLacks(Spelled(ls), map[]);
    forall i | 0 <= i < |ls| ensures ls[i].key != PROTO { LabelMapAt(ls, map[], i); }
  }

  lemma SpelledProtoFree(ls: seq<Label>)
    requires ProtoFree(ls)
    ensures Assigned(Spelled(ls), map[]) == LabelMap(Spelled(ls), map[])
  {
    SpelledAt(ls);
    AssignedIsMap(Spelled(ls), map[]);
  }

  lemma SampleSurvives(e: Emitted)
    requires GoodKeys(e.labels)
    ensures Received(e) == [Meant(e)] <==> Plain(e)
  {
    SpelledIsSame(e.labels);
    if ProtoFree(e.labels) { SpelledProtoFree(e.labels); }
    if Received(e) == [Meant(e)] {
      assert BraceFree(e.labels);
      assert [Meant(e)][0] == [Read(e)][0];
      SurvivorIsProtoFree(e.labels);
      SpelledDiffers(e.labels, map[]);
    }
  }

  lemma {:induction false} AtMostOneEach(es: seq<Emitted>)
    ensures |ReceivedAll(es)| <= |es| && |MeantAll(es)| == |es|
  {
    if es != [] { AtMostOneEach(es[1..]); }
  }

  lemma {:induction false} AllSurvive(es: seq<Emitted>)
    requires forall i :: 0 <= i < |es| ==> GoodKeys(es[i].labels)
    ensures ReceivedAll(es) == MeantAll(es) <==> forall i :: 0 <= i < |es| ==> Plain(es[i])
  {
    if es != [] {
      var rest := es[1..];
      AllSurvive(rest);
      AtMostOneEach(rest);
      SampleSurvives(es[0]);
      var r, t := Received(es[0]), ReceivedAll(rest);
      assert ReceivedAll(es) == MeantAll(es) ==> r == [Meant(es[0])] && t == MeantAll(rest) by {
        if r + t == [Meant(es[0])] + MeantAll(rest) {
          assert |r| == 1;
          assert (r + t)[0] == r[0] && (r + t)[1..] == t;
          assert ([Meant(es[0])] + MeantAll(rest))[1..] == MeantAll(rest);
        }
      }
      assert (forall i :: 0 <= i < |es| ==> Plain(es[i])) <==> Plain(es[0]) && forall i :: 0 <= i < |rest| ==> Plain(rest[i]) by {
        assert forall i :: 1 <= i < |es| ==> es[i] == rest[i - 1];
      }
    }
  }

  lemma {:induction false} PageSamplesGood(fmt: NumberFormat, bs: seq<Block>)
    requires GoodPage(fmt, bs)
    ensures AllWellFormed(fmt, SamplesOf(bs))
  {
    if bs != [] { PageSamplesGood(fmt, bs[1..]); }
  }

  /**
   * Printer and parser undo each other exactly when no label value holds a line feed
   * or `}` and no key is `__proto__`; backslashes and quotes are free.
   */
  lemma PageRoundTrip(fmt: NumberFormat, bs: seq<Block>)
    requires bs != [] && GoodPage(fmt, bs)
    ensures ParseText(fmt, RenderPage(fmt, bs)) == MeantAll(SamplesOf(bs))
      <==> forall i :: 0 <= i < |SamplesOf(bs)| ==> Plain(SamplesOf(bs)[i])
  {
    PageReceived(fmt, bs);
    PageSamplesGood(fmt, bs);
    AllSurvive(SamplesOf(bs));
  }
}
