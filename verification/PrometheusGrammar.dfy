/** What the parser's patterns match, for any text at all: each as a grammar with only one way to read a text. */
module PrometheusGrammar {
  import opened JsNumbers
  import opened JsText
  import opened Options
  import opened PrometheusText
  import opened PrometheusRoundTrip

  /** The classes by code point: digits, capitals, the underscore, small letters, and the colon in names only. */
  lemma ClassesByCode(c: char)
    ensures var u := c as int;
            var letter := 65 <= u <= 90 || u == 95 || 97 <= u <= 122;
      && (IsKeyChar(c) <==> letter || 48 <= u <= 57)
      && (IsLetter(c) <==> letter)
      && (IsNameStart(c) <==> letter || u == 58)
      && (IsNameChar(c) <==> letter || 48 <= u <= 58)
  {
  }

  // ---------------------------------------------------------------- the line pattern

  /** White space, a token without any, and white space up to the end. */
  ghost predicate IsValuePart(s: string, token: string) {
    exists before, after ::
      before != "" && AllSpace(before) && token != "" && NoSpace(token) && AllSpace(after) && s == before + (token + after)
  }

  lemma TokenFound(before: string, token: string, after: string)
    requires before != "" && AllSpace(before) && token != "" && NoSpace(token) && AllSpace(after)
    ensures ValueToken(before + (token + after)) == Some(token)
  {
    var s, t := before + (token + after), token + after;
    assert t[0] == token[0];
    RunExact(IsSpace, before, t);
    assert s[|before|..] == t;
    RunExact(IsSolid, token, after);
    assert t[|token|..] == after && t[..|token|] == token;
    RunExact(IsSpace, after, "");
    assert after + "" == after;
  }

  lemma TokenSplits(s: string, token: string)
    requires ValueToken(s) == Some(token)
    ensures IsValuePart(s, token)
  {
    var a := Run(IsSpace, s);
    var t := s[a..];
    var b := Run(IsSolid, t);
    var before, after := s[..a], t[b..];
    assert s == before + (token + after);
    assert AllSpace(before) && NoSpace(token);
    assert forall i :: 0 <= i < |after| ==> IsSpace(after[i]);
  }

  /** The value pattern matches exactly the texts of that shape. */
  lemma ValueTokenExactly(s: string, token: string)
    ensures ValueToken(s) == Some(token) <==> IsValuePart(s, token)
  {
    if ValueToken(s) == Some(token) { TokenSplits(s, token); }
    if IsValuePart(s, token) {
      var before, after :| before != "" && AllSpace(before) && token != "" && NoSpace(token) && AllSpace(after) && s == before + (token + after);
      TokenFound(before, token, after);
    }
  }

  predicate IsBare(s: string, l: Line, value: string) { l.labels == "" && s == l.name + value }

  predicate IsBraced(s: string, l: Line, value: string) {
    '}' !in l.labels && s == l.name + ("{" + (l.labels + ("}" + value)))
  }

  /** A name, then a brace group that ends at its first closing brace or none at all, then the value. */
  ghost predicate IsSampleLine(s: string, l: Line) {
    IsMetricName(l.name) && exists value :: IsValuePart(value, l.token) && (IsBare(s, l, value) || IsBraced(s, l, value))
  }

  lemma ValueStart(value: string, token: string)
    requires IsValuePart(value, token)
    ensures value != "" && IsSpace(value[0]) && !IsNameChar(value[0]) && value[0] != '{'
  {
  }

  /** The greedy name of a line ends where the name does. */
  lemma NameCut(name: string, rest: string)
    requires IsMetricName(name) && rest != "" && !IsNameChar(rest[0])
    ensures var s := name + rest;
      && Run(IsNameChar, s) == |name| && IsNameStart(s[0]) && s[|name|] == rest[0]
      && s[..|name|] == name && s[|name|..] == rest && s[|name| + 1..] == rest[1..]
  {
    RunExact(IsNameChar, name, rest);
    assert (name + rest)[0] == name[0];
  }

  lemma BareMatches(name: string, value: string, token: string)
    requires IsMetricName(name) && IsValuePart(value, token)
    ensures MatchLine(name + value) == Some(Line(name, "", token))
  {
    ValueStart(value, token);
    ValueTokenExactly(value, token);
    NameCut(name, value);
  }

  lemma GroupMatches(name: string, labels: string, value: string, token: string)
    requires '}' !in labels && IsValuePart(value, token)
    ensures MatchBraces(name, labels + ("}" + value)) == Some(Line(name, labels, token))
  {
    var inner := labels + ("}" + value);
    ValueTokenExactly(value, token);
    assert inner[..|labels|] == labels && inner[|labels|] == '}' && inner[|labels| + 1..] == value;
    FindFirst(inner, '}', |labels|);
  }

  lemma BracesMatch(name: string, labels: string, value: string, token: string)
    requires IsMetricName(name) && '}' !in labels && IsValuePart(value, token)
    ensures MatchLine(name + ("{" + (labels + ("}" + value)))) == Some(Line(name, labels, token))
  {
    var inner := labels + ("}" + value);
    var rest := "{" + inner;
    assert rest[0] == '{' && rest[1..] == inner;
    NameCut(name, rest);
    GroupMatches(name, labels, value, token);
  }

  lemma NameSplits(s: string)
    requires s != "" && IsNameStart(s[0])
    ensures var n := Run(IsNameChar, s); n > 0 && IsMetricName(s[..n]) && s == s[..n] + s[n..]
  {
  }

  lemma CutAt(s: string, k: nat)
    requires k < |s|
    ensures s == s[..k] + ([s[k]] + s[k + 1..]) && s[k..] == [s[k]] + s[k + 1..]
  {
  }

  lemma BracedFrom(name: string, labels: string, value: string, inner: string, token: string)
    requires IsMetricName(name) && IsValuePart(value, token) && '}' !in labels && inner == labels + ("}" + value)
    ensures IsSampleLine(name + ("{" + inner), Line(name, labels, token))
  {
    assert IsBraced(name + ("{" + inner), Line(name, labels, token), value);
  }

  lemma BracesSplit(name: string, inner: string, l: Line)
    requires MatchBraces(name, inner) == Some(l) && IsMetricName(name)
    ensures IsSampleLine(name + ("{" + inner), l)
  {
    var close := Find(inner, '}').value;
    var value := inner[close + 1..];
    ValueTokenExactly(value, l.token);
    CutAt(inner, close);
    assert inner == inner[..close] + ("}" + value);
    BracedFrom(name, inner[..close], value, inner, l.token);
  }

  lemma BareSplits(name: string, rest: string, l: Line)
    requires MatchBare(name, rest) == Some(l) && IsMetricName(name)
    ensures IsSampleLine(name + rest, l)
  {
    ValueTokenExactly(rest, l.token);
    assert IsBare(name + rest, l, rest);
  }

  /** The line pattern matches exactly the lines of that shape, and reads them in one way only. */
  lemma LineMatchesExactly(s: string, l: Line)
    ensures MatchLine(s) == Some(l) <==> IsSampleLine(s, l)
  {
    if MatchLine(s) == Some(l) { LineSplits(s, l); }
    if IsSampleLine(s, l) {
      var value :| IsValuePart(value, l.token) && (IsBare(s, l, value) || IsBraced(s, l, value));
      if IsBare(s, l, value) { BareMatches(l.name, value, l.token); }
      else { BracesMatch(l.name, l.labels, value, l.token); }
    }
  }

  lemma LineSplits(s: string, l: Line)
    requires MatchLine(s) == Some(l)
    ensures IsSampleLine(s, l)
  {
    NameSplits(s);
    var n := Run(IsNameChar, s);
    if n < |s| && s[n] == '{' {
      CutAt(s, n);
      assert s[n..] == "{" + s[n + 1..];
      BracesSplit(s[..n], s[n + 1..], l);
    } else {
      BareSplits(s[..n], s[n..], l);
    }
  }

  /** What a token stands for: an infinity, or the number it spells. */
  predicate ReadsAs(fmt: NumberFormat, token: string, v: Number) {
    && (token == "+Inf" ==> v == PlusInfinity)
    && (token == "-Inf" ==> v == MinusInfinity)
    && (token != "+Inf" && token != "-Inf" ==> v == fmt.read(token))
  }

  predicate Yields(fmt: NumberFormat, l: Line, x: Sample) {
    x.name == l.name && x.labels == ParsePairs(l.labels, map[]) && ReadsAs(fmt, l.token, x.value) && !x.value.NaN?
  }

  lemma YieldsOne(fmt: NumberFormat, l: Line, x: Sample)
    ensures Yields(fmt, l, x) <==> x == Sample(l.name, ParsePairs(l.labels, map[]), ParseValue(fmt, l.token)) && !x.value.NaN?
  {
    assert "+Inf"[0] != "-Inf"[0];
  }

  /** A line yields a sample exactly if it has that shape and its value is a number. */
  lemma LineYieldsExactly(fmt: NumberFormat, s: string, x: Sample)
    ensures x in ParseLine(fmt, s) <==> exists l :: IsSampleLine(s, l) && Yields(fmt, l, x)
    ensures |ParseLine(fmt, s)| <= 1
  {
    var m := MatchLine(s);
    if x in ParseLine(fmt, s) {
      LineMatchesExactly(s, m.value);
      YieldsOne(fmt, m.value, x);
    }
    if l :| IsSampleLine(s, l) && Yields(fmt, l, x) {
      LineMatchesExactly(s, l);
      YieldsOne(fmt, l, x);
      assert s[0] == l.name[0];
    }
  }

  // ---------------------------------------------------------------- the pair pattern

  /** Characters other than quotes and backslashes, and backslashes each with a character on the same line. */
  predicate IsBody(b: string) {
    if b == "" then true
    else if b[0] == '\\' then |b| >= 2 && !IsLineEnd(b[1]) && IsBody(b[2..])
    else b[0] != '\"' && IsBody(b[1..])
  }

  lemma {:induction false} BodyFound(b: string, rest: string)
    requires IsBody(b)
    ensures ScanBody(b + ("\"" + rest)) == Some((b, rest))
    decreases |b|
  {
    var t := "\"" + rest;
    if b == "" {
      assert b + t == t && t[0] == '\"' && t[1..] == rest;
    } else if b[0] == '\\' {
      BodyFound(b[2..], rest);
      ScanPair(b[1], b[2..] + t);
      assert b == ['\\', b[1]] + b[2..];
      Regrouped(['\\', b[1]], b[2..], t);
    } else {
      BodyFound(b[1..], rest);
      ScanPlain(b[0], b[1..] + t);
      assert b == [b[0]] + b[1..];
      Regrouped([b[0]], b[1..], t);
    }
  }

  lemma {:induction false} ScanIsBody(s: string)
    requires ScanBody(s).Some?
    ensures var (b, rest) := ScanBody(s).value; IsBody(b) && s == b + ("\"" + rest)
    decreases |s|
  {
    if s[0] == '\"' {
      assert s == "" + ("\"" + s[1..]);
    } else if s[0] == '\\' {
      ScanIsBody(s[2..]);
      var (b, rest) := ScanBody(s[2..]).value;
      assert (s[..2] + b)[2..] == b && s == s[..2] + s[2..];
      Regrouped(s[..2], b, "\"" + rest);
    } else {
      ScanIsBody(s[1..]);
      var (b, rest) := ScanBody(s[1..]).value;
      assert (s[..1] + b)[1..] == b && s == s[..1] + s[1..];
      Regrouped(s[..1], b, "\"" + rest);
    }
  }

  /** At the start of `s`: a key, an equals sign, a quoted body; `rest` is what follows the closing quote. */
  predicate IsPair(s: string, key: string, body: string, rest: string) {
    IsKey(key) && IsBody(body) && s == key + ("=\"" + (body + ("\"" + rest)))
  }

  /** The pair pattern matches exactly the texts that start like that, and reads them in one way only. */
  lemma PairMatchesExactly(s: string, key: string, body: string, rest: string)
    ensures MatchPair(s) == Some((key, body, rest)) <==> IsPair(s, key, body, rest)
  {
    if MatchPair(s) == Some((key, body, rest)) {
      var n := Run(IsKeyChar, s);
      ScanIsBody(s[n + 2..]);
      assert s == s[..n] + (s[n..n + 2] + s[n + 2..]) && s[n..n + 2] == "=\"";
      assert "=\"" + (body + ("\"" + rest)) == s[n..n + 2] + s[n + 2..];
    }
    if IsPair(s, key, body, rest) {
      BodyFound(body, rest);
      MatchKey(key, body + ("\"" + rest));
    }
  }
}
