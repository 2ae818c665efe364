/**
 * What the structural parser guarantees about the tree it builds: with
 * segmenters that keep their promise and no cancellation, a manuscript whose
 * title paragraphs come first parses, every node's children tile its range,
 * and the story text is that of the TEXT paragraphs. Also the places where
 * the parser, as written, does something a reader might not expect: a
 * trailing scene break yields an empty scene, and a non-TEXT paragraph with
 * text inside a scene breaks that scene's tiling.
 */
module StoryParsingTheorems {
  import opened Wrappers
  import opened TextRanges
  import opened Characters
  import opened ExtractedDocuments
  import opened StoryTree
  import opened StoryParsing

  // ---------------------------------------------------------------------
  // Tokens, sentences and paragraphs
  // ---------------------------------------------------------------------

  /** The ranges of a segmentation keeping its promise tile `range` and so lie inside it. */
  lemma {:induction false} SpanRangesInside(spans: seq<Span>, range: TextRange)
    requires WellFormed(range) && SegmentsText(spans, Length(range))
    ensures SpanRanges(spans, range).Ok?
    ensures var rs := SpanRanges(spans, range).value;
      Tiles(range, rs) && forall k :: 0 <= k < |rs| ==> WellFormed(rs[k]) && range.start <= rs[k].start && rs[k].end <= range.end
  {
    SpanRangesTile(spans, range);
    TilesContained(range.start, range.end, SpanRanges(spans, range).value);
  }

  /** Token ranges that start inside the paragraph all become tokens, one per range, in order. */
  lemma {:induction false} TokensFromValid(nlp: Nlp, ranges: seq<TextRange>, texts: seq<string>, tags: seq<string>,
                                           paragraph: ExtractedParagraph, paragraphStart: int, i: nat)
    requires i <= |ranges| <= |texts| && |ranges| <= |tags|
    requires forall k :: 0 <= k < |ranges| ==> WellFormed(ranges[k]) && ranges[k].start >= paragraphStart
    ensures TokensFrom(nlp, ranges, texts, tags, paragraph, paragraphStart, i).Ok?
    ensures forall k :: 0 <= k < |ranges| - i ==> TokensFrom(nlp, ranges, texts, tags, paragraph, paragraphStart, i).value[k].range == ranges[i + k]
    decreases |ranges| - i
  {
    if i < |ranges| {
      TokensFromValid(nlp, ranges, texts, tags, paragraph, paragraphStart, i + 1);
      var t := ConstructToken(nlp, ranges[i], texts[i], tags[i], paragraph, paragraphStart);
      var rest := TokensFrom(nlp, ranges, texts, tags, paragraph, paragraphStart, i + 1);
      var tokens := TokensFrom(nlp, ranges, texts, tags, paragraph, paragraphStart, i);
      assert tokens == Ok([t.value] + rest.value);
    }
  }

  /** The text of the sentence over `r` in the paragraph starting at story offset `paragraphStart`. */
  function SentenceText(r: TextRange, paragraph: ExtractedParagraph, paragraphStart: int): string
    requires paragraphStart <= r.start <= r.end <= paragraphStart + |paragraph.text|
  {
    paragraph.text[r.start - paragraphStart..r.end - paragraphStart]
  }

  /** A sentence range inside its paragraph, over text that is not blank, yields valid tokens that tile it. */
  lemma {:induction false} SentenceTokensValid(nlp: Nlp, sentenceRange: TextRange, paragraph: ExtractedParagraph, paragraphStart: int)
    requires NlpContract(nlp) && WellFormed(sentenceRange)
    requires paragraphStart <= sentenceRange.start && sentenceRange.end <= paragraphStart + |paragraph.text|
    requires !IsBlank(SentenceText(sentenceRange, paragraph, paragraphStart))
    ensures SentenceTokens(nlp, sentenceRange, paragraph, paragraphStart).Ok?
    ensures var tokens := SentenceTokens(nlp, sentenceRange, paragraph, paragraphStart).value;
      Tiles(sentenceRange, Ranges(tokens)) && forall k :: 0 <= k < |tokens| ==> ValidNode(tokens[k])
  {
    var sentence := CoveredText(LocalRange(sentenceRange, paragraphStart), paragraph.text).value;
    assert sentence == SentenceText(sentenceRange, paragraph, paragraphStart);
    var tokenSpans := nlp.tokenizePos(sentence);
    assert SegmentsText(tokenSpans, |sentence|);
    var tokenTexts := SpansToStrings(tokenSpans, sentence).value;
    assert |nlp.tag(tokenTexts)| == |tokenTexts|;
    SpanRangesInside(tokenSpans, sentenceRange);
    var rs := SpanRanges(tokenSpans, sentenceRange).value;
    TokensFromValid(nlp, rs, tokenTexts, nlp.tag(tokenTexts), paragraph, paragraphStart, 0);
    var tokens := TokensFrom(nlp, rs, tokenTexts, nlp.tag(tokenTexts), paragraph, paragraphStart, 0).value;
    assert Ranges(tokens) == rs;
  }

  /** `tokenize` yields valid tokens that tile `r`. */
  ghost predicate TokenizesRange(tokenize: SentenceTokenizer, r: TextRange)
  {
    tokenize(r).Ok? && Tiles(r, Ranges(tokenize(r).value)) && forall k :: 0 <= k < |tokenize(r).value| ==> ValidNode(tokenize(r).value[k])
  }

  /** Every range of `rs` is well formed and `tokenize` tiles it. */
  ghost predicate TokenizesAll(tokenize: SentenceTokenizer, rs: seq<TextRange>)
  {
    forall k :: 0 <= k < |rs| ==> WellFormed(rs[k]) && TokenizesRange(tokenize, rs[k])
  }

  /** Sentence ranges that tokenize into tilings all become valid sentences over those ranges. */
  lemma {:induction false} SentencesFromValid(tokenize: SentenceTokenizer, ranges: seq<TextRange>, i: nat)
    requires TokenizesTokens(tokenize) && i <= |ranges|
    requires forall k :: 0 <= k < |ranges| ==> WellFormed(ranges[k]) && TokenizesRange(tokenize, ranges[k])
    ensures SentencesFrom(tokenize, ranges, i).Ok?
    ensures var sentences := SentencesFrom(tokenize, ranges, i).value;
      |sentences| == |ranges| - i &&
      forall k :: 0 <= k < |sentences| ==> sentences[k].range == ranges[i + k] && ValidNode(sentences[k])
    decreases |ranges| - i
  {
    if i < |ranges| {
      assert TokenizesRange(tokenize, ranges[i]);
      var sentence := NewSentence(ranges[i], tokenize(ranges[i]).value);
      SentencesFromStep(tokenize, ranges, i);
      SentencesFromValid(tokenize, ranges, i + 1);
      var rest := SentencesFrom(tokenize, ranges, i + 1).value;
      var sentences := SentencesFrom(tokenize, ranges, i).value;
      assert sentences == [sentence.value] + rest;
      forall k | 0 <= k < |sentences| ensures sentences[k].range == ranges[i + k] && ValidNode(sentences[k]) {
        if k > 0 {
          assert sentences[k] == rest[k - 1];
        }
      }
    }
  }

  /**
   * Under the segmenters' promise, a paragraph that is not blank and whose
   * offset the monitor accepts without cancelling parses into a valid node.
   */
  lemma {:induction false} ParagraphNodeValid(nlp: Nlp, monitor: TextMonitor, paragraph: ExtractedParagraph, start: nat)
    requires NlpContract(nlp) && !IsBlank(paragraph.text) && start < monitor.textLength && !monitor.cancelsAt(start)
    ensures ParagraphNode(nlp, monitor, paragraph, start).Ok?
    ensures ValidNode(ParagraphNode(nlp, monitor, paragraph, start).value)
  {
    var range := TextRange(start, start + |paragraph.text|);
    var spans := nlp.sentPosDetect(paragraph.text);
    assert DetectsSentences(spans, paragraph.text);
    SpanRangesInside(spans, range);
    var rs := SpanRanges(spans, range).value;
    forall k | 0 <= k < |rs|
      ensures WellFormed(rs[k]) && start <= rs[k].start && rs[k].end <= start + |paragraph.text|
      ensures !IsBlank(SentenceText(rs[k], paragraph, start))
    {
      SentenceRangeNonBlank(spans, paragraph, start, k);
    }
    var tokenize := ParagraphTokenizer(nlp, paragraph, start);
    ParagraphTokenizerValid(nlp, paragraph, start, rs);
    ParagraphSentencesValid(tokenize, range, rs);
    ParagraphNodeUnfold(nlp, monitor, paragraph, start, range, rs, SentencesFrom(tokenize, rs, 0).value);
  }

  /** Sentence ranges that tile the paragraph and tokenize into tilings give a valid paragraph node. */
  lemma {:induction false} ParagraphSentencesValid(tokenize: SentenceTokenizer, range: TextRange, rs: seq<TextRange>)
    requires TokenizesTokens(tokenize) && WellFormed(range) && Tiles(range, rs) && TokenizesAll(tokenize, rs)
    ensures SentencesFrom(tokenize, rs, 0).Ok?
    ensures NewParagraph(range, SentencesFrom(tokenize, rs, 0).value).Ok?
    ensures ValidNode(NewParagraph(range, SentencesFrom(tokenize, rs, 0).value).value)
  {
    SentencesFromValid(tokenize, rs, 0);
    var sentences := SentencesFrom(tokenize, rs, 0).value;
    assert Ranges(sentences) == rs;
  }

  /**
   * Each sentence range of a paragraph that is not blank holds one of the
   * detector's sentences, so it is not blank either: range k runs from the
   * previous sentence's end, which is not past sentence k's start, to
   * sentence k's end or beyond.
   */
  lemma {:induction false} SentenceRangeNonBlank(spans: seq<Span>, paragraph: ExtractedParagraph, start: nat, k: nat)
    requires DetectsSentences(spans, paragraph.text) && k < |spans|
    ensures SpanRanges(spans, TextRange(start, start + |paragraph.text|)).Ok?
    ensures |SpanRanges(spans, TextRange(start, start + |paragraph.text|)).value| == |spans|
    ensures var r := SpanRanges(spans, TextRange(start, start + |paragraph.text|)).value[k];
      start <= r.start <= r.end <= start + |paragraph.text| && !IsBlank(SentenceText(r, paragraph, start))
  {
    var range := TextRange(start, start + |paragraph.text|);
    SentenceRangeHoldsSpan(spans, range, k);
    var r := SpanRanges(spans, range).value[k];
    NonBlankAround(paragraph.text, r.start - start, r.end - start, spans[k].start, spans[k].end);
  }

  /** Sentence range k lies inside the paragraph and holds span k. */
  lemma {:induction false} SentenceRangeHoldsSpan(spans: seq<Span>, range: TextRange, k: nat)
    requires WellFormed(range) && SegmentsText(spans, Length(range)) && k < |spans|
    requires forall k :: 0 < k < |spans| ==> spans[k - 1].end <= spans[k].start
    ensures SpanRanges(spans, range).Ok? && |SpanRanges(spans, range).value| == |spans|
    ensures var r := SpanRanges(spans, range).value[k];
      && range.start <= r.start <= range.start + spans[k].start
      && range.start + spans[k].end <= r.end <= range.end
      && SpanInside(spans[k], Length(range))
  {
    SpanRangesTile(spans, range);
    var rs := SpanRanges(spans, range).value;
    assert SpanInside(spans[k], Length(range));
    if k > 0 {
      assert spans[k - 1].end <= spans[k].start;
      assert SpanInside(spans[k - 1], Length(range));
    }
    if k < |rs| - 1 {
      assert rs[k] == TextRange(range.start + (if k == 0 then 0 else spans[k - 1].end), range.start + spans[k].end);
    } else {
      assert rs[k] == TextRange(range.start + (if |rs| == 1 then 0 else spans[|rs| - 2].end), range.end);
    }
  }

  /** A text around a part that is not blank is not blank. */
  lemma {:induction false} NonBlankAround(s: string, i: int, j: int, a: int, b: int)
    requires 0 <= i <= a <= b <= j <= |s| && !IsBlank(s[a..b])
    ensures !IsBlank(s[i..j])
  {
    var m :| 0 <= m < b - a && !IsWhitespace(s[a..b][m]);
    assert s[i..j][a - i + m] == s[a..b][m];
  }

  /**
   * A paragraph in which the sentence detector finds nothing, as OpenNLP
   * does for a blank text, fails with IndexOutOfBounds once the monitor
   * accepts its offset: the last sentence range is looked up in an empty
   * list.
   */
  lemma {:induction false} NoSentencesFails(nlp: Nlp, monitor: TextMonitor, paragraph: ExtractedParagraph, start: nat)
    requires start < monitor.textLength && !monitor.cancelsAt(start) && nlp.sentPosDetect(paragraph.text) == []
    ensures ParagraphNode(nlp, monitor, paragraph, start) == Err(IndexOutOfBounds)
  {
    SpanRangesWithoutSpans(TextRange(start, start + |paragraph.text|));
  }

  /**
   * A sentence in which the tokenizer finds nothing, as OpenNLP does for a
   * blank text, fails with IndexOutOfBounds in the same way.
   */
  lemma {:induction false} NoTokensFails(nlp: Nlp, sentenceRange: TextRange, paragraph: ExtractedParagraph, paragraphStart: int)
    requires paragraphStart <= sentenceRange.start <= sentenceRange.end <= paragraphStart + |paragraph.text|
    requires nlp.tokenizePos(SentenceText(sentenceRange, paragraph, paragraphStart)) == []
    ensures SentenceTokens(nlp, sentenceRange, paragraph, paragraphStart) == Err(IndexOutOfBounds)
  {
    var sentence := CoveredText(LocalRange(sentenceRange, paragraphStart), paragraph.text).value;
    assert sentence == SentenceText(sentenceRange, paragraph, paragraphStart);
    assert SpansToStrings([], sentence) == Ok([]);
    SpanRangesWithoutSpans(sentenceRange);
  }

  /** Sentence ranges inside the paragraph, over text that is not blank, tokenize into tilings. */
  lemma {:induction false} ParagraphTokenizerValid(nlp: Nlp, paragraph: ExtractedParagraph, start: int, rs: seq<TextRange>)
    requires NlpContract(nlp)
    requires forall k :: 0 <= k < |rs| ==>
      WellFormed(rs[k]) && start <= rs[k].start && rs[k].end <= start + |paragraph.text| && !IsBlank(SentenceText(rs[k], paragraph, start))
    ensures TokenizesAll(ParagraphTokenizer(nlp, paragraph, start), rs)
  {
    forall k | 0 <= k < |rs| ensures TokenizesRange(ParagraphTokenizer(nlp, paragraph, start), rs[k]) {
      SentenceTokensValid(nlp, rs[k], paragraph, start);
    }
  }

  /**
   * `build` succeeds with a valid node on every paragraph that is not blank
   * and ends within the first `limit` offsets of the story.
   */
  ghost predicate BuildsValidNodes(build: ParagraphBuilder, limit: int)
  {
    forall p: ExtractedParagraph, start: nat :: !IsBlank(p.text) && start + |p.text| <= limit ==> BuildsValidNodeAt(build, p, start)
  }

  /** `build` succeeds on `p` at `start` with a valid node. */
  ghost predicate BuildsValidNodeAt(build: ParagraphBuilder, p: ExtractedParagraph, start: nat)
  {
    build(p, start).Ok? && ValidNode(build(p, start).value)
  }

  /**
   * With the segmenters' promise and a monitor that never cancels, every
   * paragraph that is not blank inside the monitored text is built and valid: its
   * offset is below the text's length, so the monitor accepts it.
   */
  lemma {:induction false} ParserBuilderValid(nlp: Nlp, monitor: TextMonitor)
    requires NlpContract(nlp) && forall k :: !monitor.cancelsAt(k)
    ensures BuildsValidNodes(ParserBuilder(nlp, monitor), monitor.textLength)
  {
    forall p: ExtractedParagraph, start: nat | !IsBlank(p.text) && start + |p.text| <= monitor.textLength
      ensures BuildsValidNodeAt(ParserBuilder(nlp, monitor), p, start)
    {
      ParagraphNodeValid(nlp, monitor, p, start);
    }
  }
}

module StoryParsingStructure {
  import opened Wrappers
  import opened TextRanges
  import opened Characters
  import opened ExtractedDocuments
  import opened StoryTree
  import opened StoryParsing
  import opened StoryParsingTheorems

  // ---------------------------------------------------------------------
  // Tilings and validity of node sequences, one node at a time
  // ---------------------------------------------------------------------

  /** The nodes' ranges tile [from, to), stated one node at a time. */
  predicate NodesTile(from: int, to: int, ns: seq<Node>)
    decreases |ns|
  {
    if ns == [] then from == to else RangeOf(ns[0]).start == from && NodesTile(RangeOf(ns[0]).end, to, ns[1..])
  }

  lemma {:induction false} NodesTileIff(from: int, to: int, ns: seq<Node>)
    ensures NodesTile(from, to, ns) <==> TilesFrom(from, to, Ranges(ns))
    decreases |ns|
  {
    if ns != [] {
      NodesTileIff(RangeOf(ns[0]).end, to, ns[1..]);
      assert Ranges(ns)[1..] == Ranges(ns[1..]);
    }
  }

  /** A node over [from, mid) followed by nodes tiling [mid, to) tiles [from, to). */
  lemma {:induction false} NodesTilePrepend(from: int, mid: int, to: int, x: Node, rest: seq<Node>)
    requires RangeOf(x) == TextRange(from, mid) && NodesTile(mid, to, rest)
    ensures NodesTile(from, to, [x] + rest)
  {
    assert ([x] + rest)[1..] == rest;
  }

  /** Every node of `ns` is valid, stated one node at a time. */
  predicate AllValid(ns: seq<Node>)
    decreases |ns|
  {
    ns == [] || (ValidNode(ns[0]) && AllValid(ns[1..]))
  }

  lemma {:induction false} AllValidIff(ns: seq<Node>)
    ensures AllValid(ns) <==> forall k :: 0 <= k < |ns| ==> ValidNode(ns[k])
    decreases |ns|
  {
    if ns != [] {
      AllValidIff(ns[1..]);
      assert forall k :: 1 <= k < |ns| ==> ns[k] == ns[1..][k - 1];
    }
  }

  lemma {:induction false} AllValidCons(x: Node, rest: seq<Node>)
    ensures AllValid([x] + rest) <==> ValidNode(x) && AllValid(rest)
  {
    assert ([x] + rest)[1..] == rest;
  }

  /** Tilings that start at the same place with the same ranges end at the same place. */
  lemma {:induction false} TilesFromEnd(from: int, to: int, to2: int, rs: seq<TextRange>)
    requires TilesFrom(from, to, rs) && TilesFrom(from, to2, rs)
    ensures to == to2
    decreases |rs|
  {
    if rs != [] {
      TilesFromEnd(rs[0].end, to, to2, rs[1..]);
    }
  }

  // ---------------------------------------------------------------------
  // Offsets over windows of paragraphs
  // ---------------------------------------------------------------------

  /** Every paragraph of ps[i..j] has one of the types `ts`. */
  predicate OnlyTypes(ps: seq<ExtractedParagraph>, i: nat, j: nat, ts: set<ParagraphType>)
    requires i <= j <= |ps|
  {
    forall k :: i <= k < j ==> ps[k].ptype in ts
  }

  /** Every TEXT paragraph of ps[i..j] has a character that is not whitespace. */
  predicate TextsNonBlank(ps: seq<ExtractedParagraph>, i: nat, j: nat)
    requires i <= j <= |ps|
  {
    forall k :: i <= k < j && ps[k].ptype == Text ==> !IsBlank(ps[k].text)
  }

  /** The offset splits at any index of the window. */
  lemma {:induction false} StoryLengthSplit(ps: seq<ExtractedParagraph>, i: nat, m: nat, j: nat)
    requires i <= m <= j <= |ps|
    ensures StoryLength(ps, i, j) == StoryLength(ps, i, m) + StoryLength(ps, m, j)
    decreases m - i
  {
    if i < m {
      StoryLengthSplit(ps, i + 1, m, j);
    }
  }

  lemma {:induction false} StoryLengthWithoutText(ps: seq<ExtractedParagraph>, i: nat, j: nat)
    requires i <= j <= |ps| && forall k :: i <= k < j ==> ps[k].ptype != Text
    ensures StoryLength(ps, i, j) == 0
    decreases j - i
  {
    if i < j {
      StoryLengthWithoutText(ps, i + 1, j);
    }
  }

  lemma {:induction false} StoryLengthAllText(ps: seq<ExtractedParagraph>, i: nat, j: nat)
    requires i <= j <= |ps| && forall k :: i <= k < j ==> ps[k].ptype == Text
    ensures StoryLength(ps, i, j) == TextLengths(ps, i, j)
    decreases j - i
  {
    if i < j {
      StoryLengthAllText(ps, i + 1, j);
    }
  }

  /**
   * The scene and chapter offsets never run ahead of the paragraph offsets,
   * and fall behind once a non-TEXT paragraph with text is in the window.
   */
  lemma {:induction false} StoryLengthShorter(ps: seq<ExtractedParagraph>, i: nat, j: nat)
    requires i <= j <= |ps|
    ensures StoryLength(ps, i, j) <= TextLengths(ps, i, j)
    ensures (exists k :: i <= k < j && ps[k].ptype != Text && ps[k].text != "") ==> StoryLength(ps, i, j) < TextLengths(ps, i, j)
    decreases j - i
  {
    if i < j {
      StoryLengthShorter(ps, i + 1, j);
      if exists k :: i <= k < j && ps[k].ptype != Text && ps[k].text != "" {
        var k :| i <= k < j && ps[k].ptype != Text && ps[k].text != "";
        if k > i {
          assert i + 1 <= k < j;
        }
      }
    }
  }

  // ---------------------------------------------------------------------
  // Paragraph runs, scenes, chapters and the story
  // ---------------------------------------------------------------------

  /**
   * With a builder that always succeeds, the paragraphs of ps[i..j] tile
   * [start, end), end being start plus their summed text lengths.
   */
  lemma {:induction false} ParagraphsFromValid(build: ParagraphBuilder, limit: int, ps: seq<ExtractedParagraph>, i: nat, j: nat,
                                               start: nat)
    returns (nodes: seq<Node>, end: nat)
    requires BuildsParagraphs(build) && BuildsValidNodes(build, limit) && i <= j <= |ps|
    requires (forall k :: i <= k < j ==> !IsBlank(ps[k].text)) && start + TextLengths(ps, i, j) <= limit
    ensures ParagraphsFrom(build, ps, i, j, start) == Ok(nodes)
    ensures end == start + TextLengths(ps, i, j)
    ensures NodesTile(start, end, nodes) && AllValid(nodes)
    decreases j - i
  {
    if i == j {
      nodes, end := [], start;
    } else {
      assert BuildsValidNodeAt(build, ps[i], start) && BuildsParagraphAt(build, ps[i], start);
      var node := build(ps[i], start).value;
      var next := start + |ps[i].text|;
      var rest, restEnd := ParagraphsFromValid(build, limit, ps, i + 1, j, next);
      NodesTilePrepend(start, next, restEnd, node, rest);
      AllValidCons(node, rest);
      nodes, end := [node] + rest, restEnd;
    }
  }

  /** A scene's paragraphs run between scene breaks: TEXT only, the breaks before them add nothing. */
  lemma {:induction false} SceneSpan(ps: seq<ExtractedParagraph>, i: nat, j: nat, b: nat, e: nat)
    requires i < j <= |ps| && OnlyTypes(ps, i, j, {Text, SceneBreak})
    requires b == SkipRun(ps, i, j, SceneBreak) && e == NextOf(ps, b, j, SceneBreak)
    ensures i < e && forall k :: b <= k < e ==> ps[k].ptype == Text
    ensures StoryLength(ps, i, j) == StoryLength(ps, b, e) + StoryLength(ps, e, j)
  {
    SkipRunAll(ps, i, j, SceneBreak);
    NextOfAll(ps, b, j, SceneBreak);
    StoryLengthSplit(ps, i, b, j);
    StoryLengthSplit(ps, b, e, j);
    StoryLengthWithoutText(ps, i, b);
  }

  /** A scene over nodes that tile its range and are valid is built, and it is valid. */
  lemma {:induction false} SceneOfValid(start: nat, end: nat, paragraphs: seq<Node>) returns (scene: Node)
    requires start <= end && forall k :: 0 <= k < |paragraphs| ==> paragraphs[k].Paragraph?
    requires NodesTile(start, end, paragraphs) && AllValid(paragraphs)
    ensures NewScene(TextRange(start, end), paragraphs) == Ok(scene)
    ensures ValidNode(scene) && RangeOf(scene) == TextRange(start, end)
  {
    NodesTileIff(start, end, paragraphs);
    AllValidIff(paragraphs);
    scene := NewScene(TextRange(start, end), paragraphs).value;
  }

  /** The first scene of a non-empty window: a valid scene up to `end`, and the window goes on from `e`. */
  lemma {:induction false} FirstSceneValid(build: ParagraphBuilder, limit: int, ps: seq<ExtractedParagraph>, i: nat, j: nat,
                                           start: nat)
    returns (e: nat, end: nat, scene: Node)
    requires BuildsParagraphs(build) && BuildsValidNodes(build, limit)
    requires i < j <= |ps| && OnlyTypes(ps, i, j, {Text, SceneBreak})
    requires TextsNonBlank(ps, i, j) && start + StoryLength(ps, i, j) <= limit
    ensures i < e <= j
    ensures ValidNode(scene) && RangeOf(scene) == TextRange(start, end)
    ensures end + StoryLength(ps, e, j) == start + StoryLength(ps, i, j)
    ensures ScenesFrom(build, ps, i, j, start) == Prepend([scene], ScenesFrom(build, ps, e, j, end))
  {
    var b := SkipRun(ps, i, j, SceneBreak);
    e := NextOf(ps, b, j, SceneBreak);
    SceneSpan(ps, i, j, b, e);
    end := start + StoryLength(ps, b, e);
    StoryLengthAllText(ps, b, e);
    var paragraphs, _ := ParagraphsFromValid(build, limit, ps, b, e, start);
    scene := SceneOfValid(start, end, paragraphs);
    ScenesFromFirst(build, ps, i, j, start, b, e, end, scene);
  }

  /**
   * A window of TEXT and SCENE_BREAK paragraphs, with a builder that always
   * succeeds, gives valid scenes that tile [start, start + its TEXT length).
   */
  lemma {:induction false} ScenesFromValid(build: ParagraphBuilder, limit: int, ps: seq<ExtractedParagraph>, i: nat, j: nat,
                                           start: nat)
    returns (scenes: seq<Node>, end: nat)
    requires BuildsParagraphs(build) && BuildsValidNodes(build, limit)
    requires i <= j <= |ps| && OnlyTypes(ps, i, j, {Text, SceneBreak})
    requires TextsNonBlank(ps, i, j) && start + StoryLength(ps, i, j) <= limit
    ensures ScenesFrom(build, ps, i, j, start) == Ok(scenes)
    ensures end == start + StoryLength(ps, i, j)
    ensures NodesTile(start, end, scenes) && AllValid(scenes)
    ensures forall k :: 0 <= k < |scenes| ==> scenes[k].Scene?
    decreases j - i
  {
    if i == j {
      scenes, end := [], start;
    } else {
      var e, firstEnd, scene := FirstSceneValid(build, limit, ps, i, j, start);
      var rest, restEnd := ScenesFromValid(build, limit, ps, e, j, firstEnd);
      NodesTilePrepend(start, firstEnd, restEnd, scene, rest);
      AllValidCons(scene, rest);
      scenes, end := [scene] + rest, restEnd;
    }
  }

  /** Whatever the builder returns, built paragraphs tile [start, start + their summed text lengths). */
  lemma {:induction false} ParagraphsFromTile(build: ParagraphBuilder, ps: seq<ExtractedParagraph>, i: nat, j: nat, start: nat,
                                              nodes: seq<Node>)
    requires BuildsParagraphs(build) && i <= j <= |ps|
    requires ParagraphsFrom(build, ps, i, j, start) == Ok(nodes)
    ensures NodesTile(start, start + TextLengths(ps, i, j), nodes)
    decreases j - i
  {
    if i < j {
      assert BuildsParagraphAt(build, ps[i], start);
      var next := start + |ps[i].text|;
      var rest := ParagraphsFrom(build, ps, i + 1, j, next);
      assert nodes == [build(ps[i], start).value] + rest.value;
      ParagraphsFromTile(build, ps, i + 1, j, next, rest.value);
      NodesTilePrepend(start, next, start + TextLengths(ps, i, j), nodes[0], rest.value);
    }
  }

  /**
   * A scene's range counts only TEXT while its paragraphs are laid out
   * whatever their type: a non-TEXT paragraph with text inside a scene's run
   * makes the scene's children miss its range, and the scene is rejected.
   */
  lemma {:induction false} NonTextBreaksScene(build: ParagraphBuilder, ps: seq<ExtractedParagraph>, b: nat, e: nat, start: nat)
    requires BuildsParagraphs(build) && b <= e <= |ps|
    requires exists k :: b <= k < e && ps[k].ptype != Text && ps[k].text != ""
    ensures SceneAt(build, ps, b, e, start).Err?
    ensures ParagraphsFrom(build, ps, b, e, start).Ok? ==> SceneAt(build, ps, b, e, start) == Err(IllegalArgument)
  {
    var paragraphs := ParagraphsFrom(build, ps, b, e, start);
    if paragraphs.Ok? {
      var laidOut, counted := start + TextLengths(ps, b, e), start + StoryLength(ps, b, e);
      ParagraphsFromTile(build, ps, b, e, start, paragraphs.value);
      NodesTileIff(start, laidOut, paragraphs.value);
      StoryLengthShorter(ps, b, e);
      if Tiles(TextRange(start, counted), Ranges(paragraphs.value)) {
        TilesFromEnd(start, counted, laidOut, Ranges(paragraphs.value));
      }
    }
  }

  /**
   * A window that ends in a SCENE_BREAK ends with an empty scene: no
   * paragraphs, over the empty range at the window's end.
   */
  lemma {:induction false} TrailingBreakEmptyScene(build: ParagraphBuilder, ps: seq<ExtractedParagraph>, i: nat, j: nat, start: nat)
    returns (scenes: seq<Node>)
    requires BuildsParagraphs(build) && i < j <= |ps| && ps[j - 1].ptype == SceneBreak
    requires ScenesFrom(build, ps, i, j, start).Ok?
    ensures ScenesFrom(build, ps, i, j, start) == Ok(scenes) && scenes != []
    ensures scenes[|scenes| - 1] == Scene(TextRange(start + StoryLength(ps, i, j), start + StoryLength(ps, i, j)), [])
    decreases j - i
  {
    var b := SkipRun(ps, i, j, SceneBreak);
    var e := NextOf(ps, b, j, SceneBreak);
    TrailingBreakWindow(ps, i, j, b, e);
    var scene := SceneAt(build, ps, b, e, start);
    var next := start + StoryLength(ps, b, e);
    var rest := ScenesFrom(build, ps, e, j, next);
    ScenesFromUnfold(build, ps, i, j, start, b, e, scene, rest);
    if b == j {
      assert e == j && next == start && rest == Ok([]);
      EmptySceneAt(build, ps, j, start);
      scenes := [scene.value];
      assert [scene.value] + [] == scenes;
    } else {
      var restScenes := TrailingBreakEmptyScene(build, ps, e, j, next);
      scenes := [scene.value] + restScenes;
      assert scenes[|scenes| - 1] == restScenes[|restScenes| - 1];
    }
  }

  /**
   * The windows of a scene run that ends in a SCENE_BREAK: the leading breaks
   * add nothing, and the scene they lead to stops before the window's end
   * unless nothing but breaks is left.
   */
  lemma TrailingBreakWindow(ps: seq<ExtractedParagraph>, i: nat, j: nat, b: nat, e: nat)
    requires i < j <= |ps| && ps[j - 1].ptype == SceneBreak
    requires b == SkipRun(ps, i, j, SceneBreak) && e == NextOf(ps, b, j, SceneBreak)
    ensures i <= b <= e <= j && (b == j <==> e == j) && (b < j ==> i < e)
    ensures StoryLength(ps, i, j) == StoryLength(ps, b, e) + StoryLength(ps, e, j)
  {
    SkipRunAll(ps, i, j, SceneBreak);
    StoryLengthWithoutText(ps, i, b);
    StoryLengthSplit(ps, i, b, j);
    if b < j {
      NextOfAll(ps, b, j, SceneBreak);
      assert e < j;
      StoryLengthSplit(ps, b, e, j);
    }
  }

  /** The scene over an empty window has no paragraphs and the empty range at its start. */
  lemma EmptySceneAt(build: ParagraphBuilder, ps: seq<ExtractedParagraph>, j: nat, start: nat)
    requires BuildsParagraphs(build) && j <= |ps|
    ensures SceneAt(build, ps, j, j, start) == Ok(Scene(TextRange(start, start), []))
  {
    assert TilesFrom(start, start, Ranges([]));
  }

  /** A chapter's paragraphs run between chapter titles: TEXT and SCENE_BREAK only, the titles before them add nothing. */
  lemma {:induction false} ChapterSpan(ps: seq<ExtractedParagraph>, i: nat, j: nat, t: nat, e: nat)
    requires i < j <= |ps| && OnlyTypes(ps, i, j, {Text, SceneBreak, ChapterTitle})
    requires t == SkipRun(ps, i, j, ChapterTitle) && e == NextOf(ps, t, j, ChapterTitle)
    ensures i < e && OnlyTypes(ps, t, e, {Text, SceneBreak})
    ensures StoryLength(ps, i, j) == StoryLength(ps, t, e) + StoryLength(ps, e, j)
  {
    SkipRunAll(ps, i, j, ChapterTitle);
    NextOfAll(ps, t, j, ChapterTitle);
    StoryLengthSplit(ps, i, t, j);
    StoryLengthSplit(ps, t, e, j);
    StoryLengthWithoutText(ps, i, t);
  }

  /** A chapter over scenes that tile its range and are valid is built, and it is valid. */
  lemma {:induction false} ChapterOfValid(start: nat, end: nat, scenes: seq<Node>, title: string) returns (chapter: Node)
    requires start <= end && forall k :: 0 <= k < |scenes| ==> scenes[k].Scene?
    requires NodesTile(start, end, scenes) && AllValid(scenes)
    ensures NewChapter(TextRange(start, end), scenes, title) == Ok(chapter)
    ensures ValidNode(chapter) && RangeOf(chapter) == TextRange(start, end)
  {
    NodesTileIff(start, end, scenes);
    AllValidIff(scenes);
    chapter := NewChapter(TextRange(start, end), scenes, title).value;
  }

  /** The first chapter of a non-empty window: a valid chapter up to `end`, and the window goes on from `e`. */
  lemma {:induction false} FirstChapterValid(build: ParagraphBuilder, limit: int, ps: seq<ExtractedParagraph>, i: nat, j: nat,
                                             start: nat)
    returns (e: nat, end: nat, chapter: Node)
    requires BuildsParagraphs(build) && BuildsValidNodes(build, limit)
    requires i < j <= |ps| && OnlyTypes(ps, i, j, {Text, SceneBreak, ChapterTitle})
    requires TextsNonBlank(ps, i, j) && start + StoryLength(ps, i, j) <= limit
    ensures i < e <= j
    ensures ValidNode(chapter) && RangeOf(chapter) == TextRange(start, end)
    ensures end + StoryLength(ps, e, j) == start + StoryLength(ps, i, j)
    ensures ChaptersFrom(build, ps, i, j, start) == Prepend([chapter], ChaptersFrom(build, ps, e, j, end))
  {
    var t := SkipRun(ps, i, j, ChapterTitle);
    e := NextOf(ps, t, j, ChapterTitle);
    ChapterSpan(ps, i, j, t, e);
    end := start + StoryLength(ps, t, e);
    chapter := ChapterAtValid(build, limit, ps, i, t, e, start, end);
    ChaptersFromUnfold(build, ps, i, j, start, t, e, Ok(chapter), ChaptersFrom(build, ps, e, j, end));
  }

  /** A chapter over a window of TEXT and SCENE_BREAK paragraphs is built, and it is valid. */
  lemma {:induction false} ChapterAtValid(build: ParagraphBuilder, limit: int, ps: seq<ExtractedParagraph>, i: nat, t: nat, e: nat,
                                          start: nat, end: nat)
    returns (chapter: Node)
    requires BuildsParagraphs(build) && BuildsValidNodes(build, limit)
    requires i <= t <= e <= |ps| && OnlyTypes(ps, t, e, {Text, SceneBreak}) && end == start + StoryLength(ps, t, e)
    requires TextsNonBlank(ps, t, e) && end <= limit
    ensures ChapterAt(build, ps, i, t, e, start) == Ok(chapter)
    ensures ValidNode(chapter) && RangeOf(chapter) == TextRange(start, end)
  {
    var scenes, scenesEnd := ScenesFromValid(build, limit, ps, t, e, start);
    chapter := ChapterOfValid(start, scenesEnd, scenes, Trim(JoinTexts(ps, i, t, "\n")));
  }

  /**
   * A window of TEXT, SCENE_BREAK and CHAPTER_TITLE paragraphs, with a
   * builder that always succeeds, gives valid chapters that tile
   * [start, start + its TEXT length).
   */
  lemma {:induction false} ChaptersFromValid(build: ParagraphBuilder, limit: int, ps: seq<ExtractedParagraph>, i: nat, j: nat,
                                             start: nat)
    returns (chapters: seq<Node>, end: nat)
    requires BuildsParagraphs(build) && BuildsValidNodes(build, limit)
    requires i <= j <= |ps| && OnlyTypes(ps, i, j, {Text, SceneBreak, ChapterTitle})
    requires TextsNonBlank(ps, i, j) && start + StoryLength(ps, i, j) <= limit
    ensures ChaptersFrom(build, ps, i, j, start) == Ok(chapters)
    ensures end == start + StoryLength(ps, i, j)
    ensures NodesTile(start, end, chapters) && AllValid(chapters)
    decreases j - i
  {
    if i == j {
      chapters, end := [], start;
    } else {
      var e, firstEnd, chapter := FirstChapterValid(build, limit, ps, i, j, start);
      var rest, restEnd := ChaptersFromValid(build, limit, ps, e, j, firstEnd);
      NodesTilePrepend(start, firstEnd, restEnd, chapter, rest);
      AllValidCons(chapter, rest);
      chapters, end := [chapter] + rest, restEnd;
    }
  }

  /** A story over chapters that tile its text and are valid is built, and it is valid. */
  lemma {:induction false} StoryOfValid(text: string, title: string, chapters: seq<Node>) returns (story: Node)
    requires forall k :: 0 <= k < |chapters| ==> chapters[k].Chapter?
    requires NodesTile(0, |text|, chapters) && AllValid(chapters)
    ensures NewStory(text, title, chapters) == Ok(story)
    ensures ValidNode(story) && story.text == text
  {
    NodesTileIff(0, |text|, chapters);
    AllValidIff(chapters);
    story := NewStory(text, title, chapters).value;
  }

  /**
   * The shape `parseStory` expects of the kept paragraphs: once the leading
   * TITLE run is over, no TITLE follows.
   */
  predicate TitlesLead(ps: seq<ExtractedParagraph>)
  {
    forall k :: SkipRun(ps, 0, |ps|, Title) <= k < |ps| ==> ps[k].ptype != Title
  }

  /**
   * `parseStory` with a builder that succeeds on every paragraph that is
   * not blank inside the story text, on a document whose titles lead and
   * whose TEXT paragraphs are not blank: the story is built, it is valid (every node's
   * children tile it, level by level), and its text is that of the TEXT
   * paragraphs.
   */
  lemma {:induction false} ParseStoryValid(build: ParagraphBuilder, document: seq<ExtractedParagraph>)
    requires BuildsParagraphs(build) && BuildsValidNodes(build, |StoryText(BodyParagraphs(document))|)
    requires TitlesLead(BodyParagraphs(document)) && TextsNonBlank(BodyParagraphs(document), 0, |BodyParagraphs(document)|)
    ensures ParseStorySpec(build, document).Ok?
    ensures ValidNode(ParseStorySpec(build, document).value)
    ensures ParseStorySpec(build, document).value.text == StoryText(BodyParagraphs(document))
  {
    var ps := BodyParagraphs(document);
    var n := |ps|;
    var i := SkipRun(ps, 0, n, Title);
    SkipRunAll(ps, 0, n, Title);
    assert OnlyTypes(ps, i, n, {Text, SceneBreak, ChapterTitle});
    StoryLengthSplit(ps, 0, i, n);
    StoryLengthWithoutText(ps, 0, i);
    StoryLengthIsTextLength(ps, n);
    assert ps[..n] == ps;
    var text := StoryText(ps);
    var chapters, end := ChaptersFromValid(build, |text|, ps, i, n, 0);
    assert end == |text|;
    var story := StoryOfValid(text, Trim(JoinTexts(ps, 0, i, " ")), chapters);
    assert ParseStorySpec(build, document) == Ok(story);
  }

  /**
   * The same for `generateParagraphFromSource` itself, reporting to the
   * monitor over the story text: under the segmenters' promise, with a
   * monitor that never cancels and TEXT paragraphs that are not blank (as
   * every extraction yields), `parseStory` succeeds with a valid story.
   */
  lemma {:induction false} ParseStoryWithParserValid(nlp: Nlp, cancelsAt: int -> bool, document: seq<ExtractedParagraph>)
    requires NlpContract(nlp) && (forall k :: !cancelsAt(k)) && TitlesLead(BodyParagraphs(document))
    requires forall k :: 0 <= k < |document| && document[k].ptype == Text ==> !IsBlank(document[k].text)
    ensures ParseStorySpec(ParserBuilder(nlp, StoryMonitor(document, cancelsAt)), document).Ok?
    ensures ValidNode(ParseStorySpec(ParserBuilder(nlp, StoryMonitor(document, cancelsAt)), document).value)
  {
    ParserBuilderValid(nlp, StoryMonitor(document, cancelsAt));
    BodyParagraphsMembers(document);
    ParseStoryValid(ParserBuilder(nlp, StoryMonitor(document, cancelsAt)), document);
  }
}

module StoryParsingExamples {
  import opened Wrappers
  import opened ExtractedDocuments
  import opened StoryParsing

  /**
   * A document whose only paragraph is an empty TEXT paragraph: the story
   * text is empty, so the monitor accepts no offset, and reporting the
   * paragraph's offset 0 is an IllegalArgumentException whatever the
   * segmenters and the user do.
   */
  lemma {:induction false} EmptyTextParagraphRefused(nlp: Nlp, cancelsAt: int -> bool, p: ExtractedParagraph)
    requires p.text == "" && p.ptype == Text
    ensures ParseStorySpec(ParserBuilder(nlp, StoryMonitor([p], cancelsAt)), [p]) == Err(IllegalArgument)
  {
    var build := ParserBuilder(nlp, StoryMonitor([p], cancelsAt));
    assert [p][1..] == [] && BodyParagraphs([p][1..]) == [];
    var ps := BodyParagraphs([p]);
    assert ps == [p];
    assert StoryText(ps) == StoryText([]) + "";
    assert SkipRun(ps, 0, 1, Title) == 0;
    assert SkipRun(ps, 0, 1, ChapterTitle) == 0 && NextOf(ps, 0, 1, ChapterTitle) == 1;
    assert SkipRun(ps, 0, 1, SceneBreak) == 0 && NextOf(ps, 0, 1, SceneBreak) == 1;
    assert build(p, 0) == Err(IllegalArgument);
    assert ParagraphsFrom(build, ps, 0, 1, 0) == Err(IllegalArgument);
    assert SceneAt(build, ps, 0, 1, 0) == Err(IllegalArgument);
    assert ScenesFrom(build, ps, 0, 1, 0) == Err(IllegalArgument);
    assert ChapterAt(build, ps, 0, 0, 1, 0) == Err(IllegalArgument);
    assert ChaptersFrom(build, ps, 0, 1, 0) == Err(IllegalArgument);
  }
}
