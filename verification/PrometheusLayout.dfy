/** How a rendered page is laid out, line by line, as the text format asks for it. */
module PrometheusLayout {
  import opened JsText
  import opened PrometheusText
  import opened PrometheusRoundTrip

  predicate AllOneLine(lines: seq<string>) { forall i :: 0 <= i < |lines| ==> OneLine(lines[i]) }

  /** Splitting undoes joining, for texts of one line each. */
  lemma {:induction false} SplitJoin(lines: seq<string>)
    requires lines != [] && AllOneLine(lines)
    ensures Split(Join(lines, "\n")) == lines
  {
    SplitOneLine(lines[0]);
    if |lines| > 1 {
      SplitJoin(lines[1..]);
      Regrouped(lines[0], "\n", Join(lines[1..], "\n"));
      SplitConcat(lines[0], Join(lines[1..], "\n"));
      assert lines == [lines[0]] + lines[1..];
    } else {
      assert lines == [lines[0]];
    }
  }

  lemma {:induction false} SamplesAt(fmt: NumberFormat, es: seq<Emitted>)
    requires AllWellFormed(fmt, es)
    ensures |RenderSamples(fmt, es)| == |es|
    ensures forall k :: 0 <= k < |es| ==> RenderSamples(fmt, es)[k] == RenderSample(fmt, es[k])
    ensures AllOneLine(RenderSamples(fmt, es))
  {
    if es != [] {
      RenderedIsOneLine(fmt, es[0]);
      SamplesAt(fmt, es[1..]);
    }
  }

  lemma BlockSplits(fmt: NumberFormat, b: Block)
    requires GoodBlock(fmt, b)
    ensures Split(Join(BlockLines(fmt, b), "\n")) == BlockLines(fmt, b)
    ensures |BlockLines(fmt, b)| == 2 + |b.samples|
  {
    SamplesAt(fmt, b.samples);
    assert OneLine("# HELP " + b.name + " " + b.help) && OneLine("# TYPE " + b.name + " " + b.kind);
    SplitJoin(BlockLines(fmt, b));
  }

  /** Blocks with an empty line between them. */
  function PageLines(fmt: NumberFormat, bs: seq<Block>): seq<string> {
    if bs == [] then [] else BlockLines(fmt, bs[0]) + ([""] + PageLines(fmt, bs[1..]))
  }

  lemma LastSplit(text: string)
    ensures Split(text + "\n") == Split(text) + [""]
  {
    SplitConcat(text, "");
    SplitOneLine("");
    assert "\n" + "" == "\n";
  }

  lemma GapSplit(first: string, rest: string)
    ensures Split(first + "\n\n" + rest) == Split(first) + ([""] + Split(rest))
  {
    SplitConcat("", rest);
    SplitOneLine("");
    SplitConcat(first, "" + ("\n" + rest));
    assert first + "\n\n" + rest == first + ("\n" + ("" + ("\n" + rest)));
  }

  lemma JoinNext(first: string, tail: seq<string>)
    requires tail != []
    ensures Join([first] + tail, "\n\n") + "\n" == first + "\n\n" + (Join(tail, "\n\n") + "\n")
  {
    assert ([first] + tail)[1..] == tail;
    Regrouped(first + "\n\n", Join(tail, "\n\n"), "\n");
  }

  lemma {:induction false} BlocksSplit(fmt: NumberFormat, bs: seq<Block>)
    requires bs != [] && GoodPage(fmt, bs)
    ensures Split(Join(RenderBlocks(fmt, bs), "\n\n") + "\n") == PageLines(fmt, bs)
  {
    var first, tail := Join(BlockLines(fmt, bs[0]), "\n"), RenderBlocks(fmt, bs[1..]);
    BlockSplits(fmt, bs[0]);
    assert RenderBlocks(fmt, bs) == [first] + tail;
    if |bs| == 1 {
      LastSplit(first);
      assert PageLines(fmt, bs) == BlockLines(fmt, bs[0]) + ([""] + []);
    } else {
      BlocksSplit(fmt, bs[1..]);
      JoinNext(first, tail);
      GapSplit(first, Join(tail, "\n\n") + "\n");
    }
  }

  /** From line `p` on: the help line, the type line, the samples in order, and an empty line. */
  ghost predicate StandsAt(fmt: NumberFormat, lines: seq<string>, p: nat, b: Block) {
    && p + 2 + |b.samples| < |lines|
    && lines[p] == "# HELP " + b.name + " " + b.help
    && lines[p + 1] == "# TYPE " + b.name + " " + b.kind
    && (forall k :: 0 <= k < |b.samples| ==> lines[p + 2 + k] == RenderSample(fmt, b.samples[k]))
    && lines[p + 2 + |b.samples|] == ""
  }

  lemma FirstStands(fmt: NumberFormat, b: Block, more: seq<string>)
    requires GoodBlock(fmt, b)
    ensures StandsAt(fmt, BlockLines(fmt, b) + ([""] + more), 0, b)
  {
    SamplesAt(fmt, b.samples);
  }

  lemma StandsLater(fmt: NumberFormat, before: seq<string>, lines: seq<string>, p: nat, b: Block)
    requires StandsAt(fmt, lines, p, b)
    ensures StandsAt(fmt, before + lines, |before| + p, b)
  {
    var all := before + lines;
    assert forall k :: 0 <= k < |lines| ==> all[|before| + k] == lines[k];
    forall k | 0 <= k < |b.samples| ensures all[|before| + p + 2 + k] == RenderSample(fmt, b.samples[k]) {
      assert all[|before| + (p + 2 + k)] == lines[p + 2 + k];
    }
  }

  lemma {:induction false} PageLinesConcat(fmt: NumberFormat, a: seq<Block>, b: seq<Block>)
    ensures PageLines(fmt, a + b) == PageLines(fmt, a) + PageLines(fmt, b)
  {
    if a == [] {
      assert a + b == b;
    } else {
      assert (a + b)[1..] == a[1..] + b;
      PageLinesConcat(fmt, a[1..], b);
      LinesRegrouped(BlockLines(fmt, a[0]), PageLines(fmt, a[1..]), PageLines(fmt, b));
    }
  }

  lemma LinesRegrouped(own: seq<string>, lines: seq<string>, more: seq<string>)
    ensures own + ([""] + lines) + more == own + ([""] + (lines + more))
  {
  }

  lemma {:induction false} EndsBlank(fmt: NumberFormat, bs: seq<Block>)
    requires bs != []
    ensures PageLines(fmt, bs) != [] && PageLines(fmt, bs)[|PageLines(fmt, bs)| - 1] == ""
  {
    if |bs| > 1 {
      EndsBlank(fmt, bs[1..]);
    } else {
      assert PageLines(fmt, bs) == BlockLines(fmt, bs[0]) + ([""] + []);
    }
  }

  /** The first block stands at the top, every other one after an empty line. */
  ghost predicate SetOff(fmt: NumberFormat, lines: seq<string>, p: nat, b: Block, first: bool) {
    && StandsAt(fmt, lines, p, b)
    && (first ==> p == 0)
    && (!first ==> p > 0 && lines[p - 1] == "")
  }

  lemma StandsAfter(fmt: NumberFormat, before: seq<string>, b: Block, more: seq<string>)
    requires GoodBlock(fmt, b) && (before != [] ==> before[|before| - 1] == "")
    ensures SetOff(fmt, before + (BlockLines(fmt, b) + ([""] + more)), |before|, b, before == [])
  {
    FirstStands(fmt, b, more);
    StandsLater(fmt, before, BlockLines(fmt, b) + ([""] + more), 0, b);
  }

  lemma PageCut(fmt: NumberFormat, bs: seq<Block>, i: nat)
    requires i < |bs|
    ensures PageLines(fmt, bs) == PageLines(fmt, bs[..i]) + (BlockLines(fmt, bs[i]) + ([""] + PageLines(fmt, bs[i + 1..])))
  {
    assert bs == bs[..i] + bs[i..] && bs[i..][0] == bs[i] && bs[i..][1..] == bs[i + 1..];
    PageLinesConcat(fmt, bs[..i], bs[i..]);
  }

  lemma PageSplits(fmt: NumberFormat, bs: seq<Block>)
    requires bs != [] && GoodPage(fmt, bs)
    ensures Split(RenderPage(fmt, bs)) == PageLines(fmt, bs)
  {
    BlocksSplit(fmt, bs);
  }

  /**
   * Every block of a rendered page stands on it in one piece: its help and type lines, then
   * its samples in order, set off by empty lines.
   */
  lemma PageIsLaidOut(fmt: NumberFormat, bs: seq<Block>, i: nat) returns (p: nat)
    requires i < |bs| && GoodPage(fmt, bs)
    ensures SetOff(fmt, Split(RenderPage(fmt, bs)), p, bs[i], i == 0)
  {
    PageSplits(fmt, bs);
    PageCut(fmt, bs, i);
    if i > 0 { EndsBlank(fmt, bs[..i]); }
    StandsAfter(fmt, PageLines(fmt, bs[..i]), bs[i], PageLines(fmt, bs[i + 1..]));
    p := |PageLines(fmt, bs[..i])|;
  }
}
