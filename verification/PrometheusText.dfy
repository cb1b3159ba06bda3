/**
 * The printer of the metrics page and the load test's parser of it, in the
 * Prometheus text exposition format 0.0.4. How a number is spelled and read is a
 * parameter of the model.
 */
module PrometheusText {
  import opened JsNumbers
  import opened JsText
  import opened Options

  // ---------------------------------------------------------------- printing

  /** `String(v)` and `Number(s)`. */
  datatype NumberFormat = NumberFormat(show: real -> string, read: string -> Number)

  /** `v` is spelled as one token, free of braces, and read back as itself. */
  predicate Prints(fmt: NumberFormat, v: real) {
    var s := fmt.show(v);
    s != "" && NoSpace(s) && '}' !in s && s != "+Inf" && s != "-Inf" && fmt.read(s) == Finite(v)
  }

  datatype Label = Label(key: string, value: string)

  /** One sample as the printer is given it. */
  datatype Emitted = Emitted(name: string, labels: seq<Label>, value: real)

  datatype Block = Block(name: string, help: string, kind: string, samples: seq<Emitted>)

  /** `s.replace(/c/g, sub)`. */
  function ReplaceChar(s: string, c: char, sub: string): string {
    if s == "" then "" else (if s[0] == c then sub else [s[0]]) + ReplaceChar(s[1..], c, sub)
  }

  /** `escapeLabelValue`: three passes over the text. */
  function Escape(s: string): string {
    ReplaceChar(ReplaceChar(ReplaceChar(s, '\\', "\\\\"), '\"', "\\\""), '\n', "\\n")
  }

  function RenderLabel(l: Label): string { l.key + "=\"" + Escape(l.value) + "\"" }

  /** `parts.join(sep)`. */
  function Join(parts: seq<string>, sep: string): string {
    if parts == [] then "" else if |parts| == 1 then parts[0] else parts[0] + sep + Join(parts[1..], sep)
  }

  function RenderEach(ls: seq<Label>): seq<string> {
    if ls == [] then [] else [RenderLabel(ls[0])] + RenderEach(ls[1..])
  }

  function FormatLabels(ls: seq<Label>): string {
    if ls == [] then "" else "{" + Join(RenderEach(ls), ",") + "}"
  }

  function RenderSample(fmt: NumberFormat, e: Emitted): string {
    e.name + FormatLabels(e.labels) + " " + fmt.show(e.value)
  }

  function RenderSamples(fmt: NumberFormat, es: seq<Emitted>): seq<string> {
    if es == [] then [] else [RenderSample(fmt, es[0])] + RenderSamples(fmt, es[1..])
  }

  function BlockLines(fmt: NumberFormat, b: Block): seq<string> {
    ["# HELP " + b.name + " " + b.help, "# TYPE " + b.name + " " + b.kind] + RenderSamples(fmt, b.samples)
  }

  function RenderBlocks(fmt: NumberFormat, bs: seq<Block>): seq<string> {
    if bs == [] then [] else [Join(BlockLines(fmt, bs[0]), "\n")] + RenderBlocks(fmt, bs[1..])
  }

  /** The page: blocks separated by an empty line, one line feed at the end. */
  function RenderPage(fmt: NumberFormat, bs: seq<Block>): string {
    Join(RenderBlocks(fmt, bs), "\n\n") + "\n"
  }

  // ---------------------------------------------------------------- parsing

  datatype Sample = Sample(name: string, labels: map<string, string>, value: Number)

  /** `text.split("\n")`. */
  function Split(s: string): (r: seq<string>)
    ensures |r| >= 1
  {
    if s == "" then [""]
    else if s[0] == '\n' then [""] + Split(s[1..])
    else var r := Split(s[1..]); [[s[0]] + r[0]] + r[1..]
  }

  predicate IsLetter(c: char) { 'a' <= c <= 'z' || 'A' <= c <= 'Z' || c == '_' }

  predicate IsDigit(c: char) { '0' <= c <= '9' }

  predicate IsNameStart(c: char) { IsLetter(c) || c == ':' }

  predicate IsNameChar(c: char) { IsNameStart(c) || IsDigit(c) }

  predicate IsKeyChar(c: char) { IsLetter(c) || IsDigit(c) }

  predicate IsSolid(c: char) { !IsSpace(c) }

  /** The longest prefix whose characters all satisfy `p`: a greedy class of a pattern. */
  function Run(p: char -> bool, s: string): (n: nat)
    ensures n <= |s| && (forall i :: 0 <= i < n ==> p(s[i])) && (n < |s| ==> !p(s[n]))
  {
    if s == "" || !p(s[0]) then 0 else 1 + Run(p, s[1..])
  }

  function Find(s: string, c: char): (i: Option<nat>)
    ensures i.Some? ==> i.value < |s| && s[i.value] == c && c !in s[..i.value]
    ensures i.None? ==> c !in s
  {
    if s == "" then None
    else if s[0] == c then Some(0)
    else
      var i := Find(s[1..], c);
      assert s == [s[0]] + s[1..];
      if i.None? then None else
        assert s[..i.value + 1] == [s[0]] + s[1..][..i.value];
        Some(i.value + 1)
  }

  /** `\s+([^\s]+)\s*$`: the value token at the end of a line. */
  function ValueToken(s: string): Option<string> {
    var a := Run(IsSpace, s);
    var t := s[a..];
    var b := Run(IsSolid, t);
    if a > 0 && b > 0 && Run(IsSpace, t[b..]) == |t[b..]| then Some(t[..b]) else None
  }

  datatype Line = Line(name: string, labels: string, token: string)

  /** The part of the line pattern after an opening brace: everything up to the first `}`, then the value. */
  function MatchBraces(name: string, inner: string): Option<Line> {
    var close := Find(inner, '}');
    if close.None? then None
    else
      var token := ValueToken(inner[close.value + 1..]);
      if token.None? then None else Some(Line(name, inner[..close.value], token.value))
  }

  function MatchBare(name: string, rest: string): Option<Line> {
    var token := ValueToken(rest);
    if token.None? then None else Some(Line(name, "", token.value))
  }

  /** The line pattern: a name, optionally a brace group without `}` inside, and the value token. */
  function MatchLine(s: string): Option<Line> {
    var n := Run(IsNameChar, s);
    if n == 0 || !IsNameStart(s[0]) then None
    else if n < |s| && s[n] == '{' then MatchBraces(s[..n], s[n + 1..])
    else MatchBare(s[..n], s[n..])
  }

  /** `((?:[^"\\]|\\.)*)"`: the raw label value up to its closing quote, and what follows the quote. */
  function ScanBody(s: string): (r: Option<(string, string)>)
    ensures r.Some? ==> |r.value.1| < |s|
  {
    if s == "" then None
    else if s[0] == '\"' then Some(("", s[1..]))
    else if s[0] == '\\' then
      if |s| < 2 || IsLineEnd(s[1]) then None
      else var r := ScanBody(s[2..]); if r.None? then None else Some((s[..2] + r.value.0, r.value.1))
    else var r := ScanBody(s[1..]); if r.None? then None else Some((s[..1] + r.value.0, r.value.1))
  }

  /** One label pair at the very start of `s`: key, raw value, remainder. */
  function MatchPair(s: string): (r: Option<(string, string, string)>)
    ensures r.Some? ==> |r.value.2| < |s|
  {
    var n := Run(IsKeyChar, s);
    if n == 0 || !IsLetter(s[0]) || |s| < n + 2 || s[n] != '=' || s[n + 1] != '\"' then None
    else
      var body := ScanBody(s[n + 2..]);
      if body.None? then None else Some((s[..n], body.value.0, body.value.1))
  }

  /** Replace every occurrence of the two characters `a b` by `c`, left to right. */
  function ReplacePair(s: string, a: char, b: char, c: char): string {
    if s == "" then ""
    else if |s| >= 2 && s[0] == a && s[1] == b then [c] + ReplacePair(s[2..], a, b, c)
    else [s[0]] + ReplacePair(s[1..], a, b, c)
  }

  /** The parser's two passes: `\"` to `"`, then `\\` to `\`. */
  function Unescape(s: string): string {
    ReplacePair(ReplacePair(s, '\\', '\"', '\"'), '\\', '\\', '\\')
  }

  const PROTO := "__proto__"

  /** `labels[key] = value` on a plain object, which ignores a text assigned to its prototype. */
  function Assign(m: map<string, string>, key: string, value: string): map<string, string> {
    if key == PROTO then m else m[key := value]
  }

  /** The global pair search: at every position take a pair if one starts there, else move on by one. */
  function ParsePairs(s: string, m: map<string, string>): map<string, string>
    decreases |s|
  {
    if s == "" then m
    else
      var p := MatchPair(s);
      if p.Some? then ParsePairs(p.value.2, Assign(m, p.value.0, Unescape(p.value.1))) else ParsePairs(s[1..], m)
  }

  /** The loop over the matches, writing into a label map. */
  method ParseLabels(text: string) returns (labels: map<string, string>)
    ensures labels == ParsePairs(text, map[])
  {
    labels := map[];
    var rest := text;
    while rest != ""
      invariant ParsePairs(rest, labels) == ParsePairs(text, map[])
      decreases |rest|
    {
      var p := MatchPair(rest);
      if p.Some? {
        labels := Assign(labels, p.value.0, Unescape(p.value.1));
        rest := p.value.2;
      } else {
        rest := rest[1..];
      }
    }
  }

  function ParseValue(fmt: NumberFormat, s: string): Number {
    if s == "+Inf" then PlusInfinity else if s == "-Inf" then MinusInfinity else fmt.read(s)
  }

  /** What one line of the page contributes: a sample or nothing. */
  function ParseLine(fmt: NumberFormat, line: string): seq<Sample> {
    if line == "" || line[0] == '#' then []
    else
      var l := MatchLine(line);
      if l.None? then []
      else
        var v := ParseValue(fmt, l.value.token);
        if v.NaN? then [] else [Sample(l.value.name, ParsePairs(l.value.labels, map[]), v)]
  }

  function ParseLines(fmt: NumberFormat, lines: seq<string>): seq<Sample> {
    if lines == [] then [] else ParseLine(fmt, lines[0]) + ParseLines(fmt, lines[1..])
  }

  function ParseText(fmt: NumberFormat, text: string): seq<Sample> { ParseLines(fmt, Split(text)) }

  lemma {:induction false} ParseLinesConcat(fmt: NumberFormat, a: seq<string>, b: seq<string>)
    ensures ParseLines(fmt, a + b) == ParseLines(fmt, a) + ParseLines(fmt, b)
  {
    if a == [] {
      assert a + b == b;
    } else {
      assert (a + b)[1..] == a[1..] + b;
      ParseLinesConcat(fmt, a[1..], b);
    }
  }

  lemma NextLine(fmt: NumberFormat, lines: seq<string>, i: nat)
    requires i < |lines|
    ensures ParseLines(fmt, lines[..i + 1]) == ParseLines(fmt, lines[..i]) + ParseLine(fmt, lines[i])
  {
    assert lines[..i + 1] == lines[..i] + [lines[i]];
    ParseLinesConcat(fmt, lines[..i], [lines[i]]);
    assert ParseLines(fmt, [lines[i]]) == ParseLine(fmt, lines[i]) + [];
  }

  /** `parsePrometheusText`, pushing samples onto an array as the loop goes. */
  method ParsePrometheusText(fmt: NumberFormat, text: string) returns (samples: seq<Sample>)
    ensures samples == ParseText(fmt, text)
  {
    var lines := Split(text);
    samples := [];
    for i := 0 to |lines|
      invariant samples == ParseLines(fmt, lines[..i])
    {
      NextLine(fmt, lines, i);
      samples := samples + ParseLine(fmt, lines[i]);
    }
    assert lines[..|lines|] == lines;
  }

  // ---------------------------------------------------------------- escaping and unescaping

  function EscapeChar(c: char): string {
    if c == '\\' then "\\\\" else if c == '\"' then "\\\"" else if c == '\n' then "\\n" else [c]
  }

  function EscapeEach(s: string): string {
    if s == "" then "" else EscapeChar(s[0]) + EscapeEach(s[1..])
  }

  lemma {:induction false} ReplaceCharConcat(s: string, t: string, c: char, sub: string)
    ensures ReplaceChar(s + t, c, sub) == ReplaceChar(s, c, sub) + ReplaceChar(t, c, sub)
  {
    if s == "" {
      assert s + t == t;
    } else {
      assert (s + t)[1..] == s[1..] + t;
      ReplaceCharConcat(s[1..], t, c, sub);
    }
  }

  /** The three passes amount to one pass character by character. */
  lemma {:induction false} EscapeIsEach(s: string)
    ensures Escape(s) == EscapeEach(s)
  {
    if s != "" {
      EscapeIsEach(s[1..]);
      var a := ReplaceChar([s[0]], '\\', "\\\\");
      EscapeOne(s[0]);
      assert s == [s[0]] + s[1..];
      ReplaceCharConcat([s[0]], s[1..], '\\', "\\\\");
      ReplaceCharConcat(a, ReplaceChar(s[1..], '\\', "\\\\"), '\"', "\\\"");
      ReplaceCharConcat(ReplaceChar(a, '\"', "\\\""), ReplaceChar(ReplaceChar(s[1..], '\\', "\\\\"), '\"', "\\\""), '\n', "\\n");
    }
  }

  lemma ReplaceOne(x: char, c: char, sub: string)
    ensures ReplaceChar([x], c, sub) == if x == c then sub else [x]
  {
    assert [x][1..] == "";
  }

  lemma ReplaceTwo(x: char, y: char, c: char, sub: string)
    requires x != c && y != c
    ensures ReplaceChar([x, y], c, sub) == [x, y]
  {
    ReplaceCharConcat([x], [y], c, sub);
    ReplaceOne(x, c, sub);
    ReplaceOne(y, c, sub);
    assert [x, y] == [x] + [y];
  }

  lemma EscapeOne(c: char)
    ensures Escape([c]) == EscapeChar(c)
  {
    ReplaceOne(c, '\\', "\\\\");
    if c == '\\' {
      ReplaceTwo(c, c, '\"', "\\\"");
      ReplaceTwo(c, c, '\n', "\\n");
    } else {
      ReplaceOne(c, '\"', "\\\"");
      if c == '\"' { ReplaceTwo('\\', c, '\n', "\\n"); } else { ReplaceOne(c, '\n', "\\n"); }
    }
  }

  /** What the parser's two passes make of an escaped text: every line feed has become `\` `n`. */
  function LineFeedsSpelled(s: string): string {
    if s == "" then "" else SpellChar(s[0]) + LineFeedsSpelled(s[1..])
  }

  function HalfEscapeChar(c: char): string {
    if c == '\\' then "\\\\" else if c == '\n' then "\\n" else [c]
  }

  /** After the parser's first pass only backslashes are still doubled. */
  function HalfEscaped(s: string): string {
    if s == "" then "" else HalfEscapeChar(s[0]) + HalfEscaped(s[1..])
  }

  function SpellChar(c: char): string {
    if c == '\n' then "\\n" else [c]
  }

  lemma EscapeEachStart(s: string)
    ensures s != "" ==> EscapeEach(s) != "" && EscapeEach(s)[0] != '\"'
  {
  }

  /** `ReplacePair` on two leading characters that do not match keeps the first. */
  lemma ReplaceSkips(x: char, s: string, a: char, b: char, c: char)
    requires x != a || s == "" || s[0] != b
    ensures ReplacePair([x] + s, a, b, c) == [x] + ReplacePair(s, a, b, c)
  {
    assert ([x] + s)[1..] == s;
  }

  lemma ReplaceTakes(s: string, a: char, b: char, c: char)
    ensures ReplacePair([a, b] + s, a, b, c) == [c] + ReplacePair(s, a, b, c)
  {
    assert ([a, b] + s)[2..] == s;
  }

  /** Two leading characters that are no match and do not begin one stay. */
  lemma TwoStay(x: char, y: char, s: string, a: char, b: char, c: char)
    requires (x != a || y != b) && (y != a || s == "" || s[0] != b)
    ensures ReplacePair([x, y] + s, a, b, c) == [x, y] + ReplacePair(s, a, b, c)
  {
    assert [x, y] + s == [x] + ([y] + s);
    ReplaceSkips(x, [y] + s, a, b, c);
    ReplaceSkips(y, s, a, b, c);
  }

  lemma FirstPassChar(c: char, tail: string)
    requires tail == "" || tail[0] != '\"'
    ensures ReplacePair(EscapeChar(c) + tail, '\\', '\"', '\"') == HalfEscapeChar(c) + ReplacePair(tail, '\\', '\"', '\"')
  {
    if c == '\\' {
      TwoStay('\\', '\\', tail, '\\', '\"', '\"');
    } else if c == '\"' {
      ReplaceTakes(tail, '\\', '\"', '\"');
    } else if c == '\n' {
      TwoStay('\\', 'n', tail, '\\', '\"', '\"');
    } else {
      ReplaceSkips(c, tail, '\\', '\"', '\"');
    }
  }

  lemma {:induction false} FirstPass(s: string)
    ensures ReplacePair(EscapeEach(s), '\\', '\"', '\"') == HalfEscaped(s)
  {
    if s != "" {
      FirstPass(s[1..]);
      EscapeEachStart(s[1..]);
      FirstPassChar(s[0], EscapeEach(s[1..]));
    }
  }

  lemma SecondPassChar(c: char, tail: string)
    ensures ReplacePair(HalfEscapeChar(c) + tail, '\\', '\\', '\\') == SpellChar(c) + ReplacePair(tail, '\\', '\\', '\\')
  {
    if c == '\\' {
      ReplaceTakes(tail, '\\', '\\', '\\');
    } else if c == '\n' {
      TwoStay('\\', 'n', tail, '\\', '\\', '\\');
    } else {
      ReplaceSkips(c, tail, '\\', '\\', '\\');
    }
  }

  lemma {:induction false} SecondPass(s: string)
    ensures ReplacePair(HalfEscaped(s), '\\', '\\', '\\') == LineFeedsSpelled(s)
  {
    if s != "" {
      SecondPass(s[1..]);
      SecondPassChar(s[0], HalfEscaped(s[1..]));
    }
  }

  lemma {:induction false} SpelledHasNone(s: string)
    ensures '\n' !in LineFeedsSpelled(s)
  {
    if s != "" { SpelledHasNone(s[1..]); }
  }

  lemma {:induction false} SpelledSame(s: string)
    requires '\n' !in s
    ensures LineFeedsSpelled(s) == s
  {
    if s != "" {
      assert s == [s[0]] + s[1..];
      SpelledSame(s[1..]);
    }
  }

  /** The parser undoes the printer's escaping of backslashes and quotes, and misses line feeds only. */
  lemma UnescapeOfEscape(s: string)
    ensures Unescape(Escape(s)) == LineFeedsSpelled(s)
  {
    EscapeIsEach(s);
    FirstPass(s);
    SecondPass(s);
  }

  /** Escaping round-trips exactly for texts without a line feed, whatever their backslashes and quotes. */
  lemma EscapeRoundTrip(s: string)
    ensures Unescape(Escape(s)) == s <==> '\n' !in s
  {
    UnescapeOfEscape(s);
    SpelledHasNone(s);
    if '\n' !in s { SpelledSame(s); }
  }
}
