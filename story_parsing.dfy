/**
 * The structural parser (ioProcessing/OpenNLPStoryParser.java): the extracted
 * paragraphs of a manuscript become a story tree of chapters, scenes,
 * paragraphs, sentences and tokens addressed by story offsets.
 *
 * Sentence detection, tokenisation, tagging and stemming are OpenNLP calls;
 * they enter as the functions of an `Nlp` value, and what the parser relies
 * on them to return is the predicate `NlpContract`. The progress monitor
 * the paragraphs report to is a `TextMonitor`: the story text's length,
 * which bounds the offsets it accepts, and `cancelsAt`, the offsets at
 * which the user's cancellation surfaces as TaskCanceledException.
 */
module StoryParsing {
  import opened Wrappers
  import opened TextRanges
  import opened Characters
  import opened ExtractedDocuments
  import opened StoryTree

  /** An OpenNLP `Span`: offsets relative to the text it was found in. */
  datatype Span = Span(start: int, end: int)

  /** The OpenNLP calls the parser makes. */
  datatype Nlp = Nlp(
    sentPosDetect: string -> seq<Span>,
    tokenizePos: string -> seq<Span>,
    tag: seq<string> -> seq<string>,
    stem: string -> string)

  predicate SpanInside(sp: Span, len: int)
  {
    0 <= sp.start <= sp.end <= len
  }

  /** What a segmenter returns for a text of length `len`: at least one span, inside the text, with ends in order. */
  predicate SegmentsText(spans: seq<Span>, len: int)
  {
    && |spans| >= 1
    && (forall k :: 0 <= k < |spans| ==> SpanInside(spans[k], len))
    && (forall j, k :: 0 <= j < k < |spans| ==> spans[j].end <= spans[k].end)
  }

  /**
   * What the sentence detector returns for a text that is not blank: a
   * segmentation whose spans are disjoint and in order, each over some
   * character that is not whitespace (the detector trims the sentences it
   * finds).
   */
  predicate DetectsSentences(spans: seq<Span>, s: string)
  {
    && SegmentsText(spans, |s|)
    && (forall k :: 0 < k < |spans| ==> spans[k - 1].end <= spans[k].start)
    && (forall k :: 0 <= k < |spans| ==> !IsBlank(s[spans[k].start..spans[k].end]))
  }

  /**
   * What the parser relies on the OpenNLP models to do; nothing in the code
   * checks it. Segmentation is promised for text that is not blank only: on
   * a blank text the detectors find nothing, and the parser then throws
   * (`SpanRangesWithoutSpans`).
   */
  ghost predicate NlpContract(nlp: Nlp)
  {
    && (forall s {:trigger nlp.sentPosDetect(s)} :: !IsBlank(s) ==> DetectsSentences(nlp.sentPosDetect(s), s))
    && (forall s {:trigger nlp.tokenizePos(s)} :: !IsBlank(s) ==> SegmentsText(nlp.tokenizePos(s), |s|))
    && (forall ts {:trigger nlp.tag(ts)} :: |nlp.tag(ts)| == |ts|)
  }

  /** A loop's result so far, `xs`, followed by what the rest of the loop yields. */
  function Prepend<T>(xs: seq<T>, r: Result<seq<T>>): (res: Result<seq<T>>)
    ensures xs == [] ==> res == r
  {
    assert r.Ok? ==> [] + r.value == r.value;
    if r.Err? then Err(r.error) else Ok(xs + r.value)
  }

  lemma {:induction false} PrependStep<T>(xs: seq<T>, x: T, r: Result<seq<T>>)
    ensures Prepend(xs, Prepend([x], r)) == Prepend(xs + [x], r)
  {
    if r.Ok? {
      assert xs + ([x] + r.value) == (xs + [x]) + r.value;
    }
  }

  // ---------------------------------------------------------------------
  // generateTextRangesFromSpans
  // ---------------------------------------------------------------------

  /**
   * The ranges the loop builds from cursor `cur` on: each span's end, offset
   * by `base`, closes the next range; span starts are not used.
   */
  function RangesFrom(cur: int, base: int, spans: seq<Span>): (res: Result<seq<TextRange>>)
    ensures res.Ok? ==> |res.value| == |spans| && forall k :: 0 <= k < |spans| ==> WellFormed(res.value[k])
    decreases |spans|
  {
    if spans == [] then Ok([])
    else
      var r := Make(cur, base + spans[0].end);
      if r.Err? then Err(r.error)
      else
        var rest := RangesFrom(base + spans[0].end, base, spans[1..]);
        if rest.Err? then Err(rest.error) else Ok([r.value] + rest.value)
  }

  /** The ranges of `generateTextRangesFromSpans`, the last one stretched to the end of `range`. */
  function SpanRanges(spans: seq<Span>, range: TextRange): (res: Result<seq<TextRange>>)
    ensures res.Ok? ==> |res.value| == |spans| && forall k :: 0 <= k < |spans| ==> WellFormed(res.value[k])
  {
    var ranges := RangesFrom(range.start, range.start, spans);
    if ranges.Err? then Err(ranges.error)
    else
      var rs := ranges.value;
      if rs == [] then Err(IndexOutOfBounds)
      else if rs[|rs| - 1].end < range.end then Ok(rs[..|rs| - 1] + [TextRange(rs[|rs| - 1].start, range.end)])
      else Ok(rs)
  }

  method GenerateTextRangesFromSpans(spans: seq<Span>, range: TextRange) returns (res: Result<seq<TextRange>>)
    ensures res == SpanRanges(spans, range)
  {
    var currentCharIndex := range.start;
    var endingCharIndex := range.end;
    var ranges: seq<TextRange> := [];
    assert spans[0..] == spans;
    for i := 0 to |spans|
      invariant RangesFrom(range.start, range.start, spans) ==
        Prepend(ranges, RangesFrom(currentCharIndex, range.start, spans[i..]))
    {
      assert spans[i..][0] == spans[i] && spans[i..][1..] == spans[i + 1..];
      var rangeEnd := range.start + spans[i].end;
      var r :- Make(currentCharIndex, rangeEnd);
      assert forall rest :: ranges + ([r] + rest) == (ranges + [r]) + rest;
      ranges := ranges + [r];
      currentCharIndex := rangeEnd;
    }
    assert ranges + [] == ranges;
    if |ranges| == 0 {
      return Err(IndexOutOfBounds);
    }
    var lastRange := ranges[|ranges| - 1];
    if lastRange.end < endingCharIndex {
      ranges := ranges[..|ranges| - 1] + [TextRange(lastRange.start, endingCharIndex)];
    }
    return Ok(ranges);
  }

  lemma {:induction false} RangesFromTile(cur: int, base: int, spans: seq<Span>)
    requires 0 <= cur
    requires forall k :: 0 <= k < |spans| ==> cur <= base + spans[k].end
    requires forall j, k :: 0 <= j < k < |spans| ==> spans[j].end <= spans[k].end
    ensures RangesFrom(cur, base, spans).Ok?
    ensures TilesFrom(cur, if spans == [] then cur else base + spans[|spans| - 1].end, RangesFrom(cur, base, spans).value)
    ensures forall k :: 0 <= k < |spans| ==>
      RangesFrom(cur, base, spans).value[k] == TextRange(if k == 0 then cur else base + spans[k - 1].end, base + spans[k].end)
    decreases |spans|
  {
    if spans != [] {
      var next := base + spans[0].end;
      var tail := spans[1..];
      assert forall k :: 0 <= k < |tail| ==> tail[k] == spans[k + 1];
      RangesFromTile(next, base, tail);
      var rest := RangesFrom(next, base, tail).value;
      assert RangesFrom(cur, base, spans).value == [TextRange(cur, next)] + rest;
    }
  }

  lemma {:induction false} TilesFromStretchLast(from: int, to: int, rs: seq<TextRange>, to2: int)
    requires TilesFrom(from, to, rs) && rs != []
    ensures TilesFrom(from, to2, rs[..|rs| - 1] + [TextRange(rs[|rs| - 1].start, to2)])
    decreases |rs|
  {
    if |rs| > 1 {
      TilesFromStretchLast(rs[0].end, to, rs[1..], to2);
      assert rs[..|rs| - 1] + [TextRange(rs[|rs| - 1].start, to2)] ==
        [rs[0]] + (rs[1..][..|rs[1..]| - 1] + [TextRange(rs[1..][|rs[1..]| - 1].start, to2)]);
    }
  }

  /**
   * Under the segmenter's promise, the ranges tile `range`, one per span:
   * range k runs from the previous span's end (the start of `range` for the
   * first) to span k's end, and the last one reaches the end of `range`. Gaps
   * between spans therefore go to the later range.
   */
  lemma {:induction false} SpanRangesTile(spans: seq<Span>, range: TextRange)
    requires WellFormed(range) && SegmentsText(spans, Length(range))
    ensures SpanRanges(spans, range).Ok?
    ensures var rs := SpanRanges(spans, range).value;
      && |rs| == |spans|
      && Tiles(range, rs)
      && (forall k :: 0 <= k < |rs| - 1 ==>
            rs[k] == TextRange(range.start + (if k == 0 then 0 else spans[k - 1].end), range.start + spans[k].end))
      && rs[|rs| - 1] == TextRange(range.start + (if |rs| == 1 then 0 else spans[|rs| - 2].end), range.end)
  {
    var base := range.start;
    RangesFromTile(base, base, spans);
    var rs0 := RangesFrom(base, base, spans).value;
    var last := |spans| - 1;
    assert SpanInside(spans[last], Length(range));
    assert rs0[last] == TextRange(if last == 0 then base else base + spans[last - 1].end, base + spans[last].end);
    if rs0[last].end < range.end {
      TilesFromStretchLast(base, base + spans[last].end, rs0, range.end);
    } else {
      assert Tiles(range, rs0);
    }
  }

  /** No spans: `ranges.get(-1)` throws. */
  lemma {:induction false} SpanRangesWithoutSpans(range: TextRange)
    ensures SpanRanges([], range) == Err(IndexOutOfBounds)
  {
  }

  /** Sentence spans ending at 5 and 19 over [0, 19) give [0, 5) and [5, 19). */
  lemma {:induction false} SpanRangesExample()
    ensures SpanRanges([Span(0, 5), Span(6, 19)], TextRange(0, 19)) == Ok([TextRange(0, 5), TextRange(5, 19)])
  {
    var spans := [Span(0, 5), Span(6, 19)];
    var tail := spans[1..];
    assert tail == [Span(6, 19)] && tail[1..] == [];
    assert RangesFrom(19, 0, tail[1..]) == Ok([]);
    assert tail[0].end == 19 && Make(5, 19) == Ok(TextRange(5, 19));
    assert [TextRange(5, 19)] + [] == [TextRange(5, 19)];
    assert RangesFrom(5, 0, tail) == Ok([TextRange(5, 19)]);
    assert spans[0].end == 5 && Make(0, 5) == Ok(TextRange(0, 5));
    assert [TextRange(0, 5)] + [TextRange(5, 19)] == [TextRange(0, 5), TextRange(5, 19)];
    assert RangesFrom(0, 0, spans) == Ok([TextRange(0, 5), TextRange(5, 19)]);
  }


  // ---------------------------------------------------------------------
  // Tokens
  // ---------------------------------------------------------------------

  /** `Span.spansToStrings`: the text under each span; a span past the text makes `getCoveredText` throw. */
  function SpansToStrings(spans: seq<Span>, s: string): (res: Result<seq<string>>)
    ensures res.Ok? <==> forall k :: 0 <= k < |spans| ==> SpanInside(spans[k], |s|)
    ensures res.Ok? ==>
      |res.value| == |spans| && forall k :: 0 <= k < |spans| ==> res.value[k] == s[spans[k].start..spans[k].end]
    decreases |spans|
  {
    if spans == [] then Ok([])
    else if !SpanInside(spans[0], |s|) then Err(IllegalArgument)
    else
      var rest := SpansToStrings(spans[1..], s);
      if rest.Err? then Err(rest.error) else Ok([s[spans[0].start..spans[0].end]] + rest.value)
  }

  /** The token's range moved to paragraph-local offsets, the frame the formatting and quote sets use. */
  function LocalRange(tokenRange: TextRange, paragraphStart: int): TextRange
  {
    TextRange(tokenRange.start - paragraphStart, tokenRange.end - paragraphStart)
  }

  /**
   * `constructToken`: each flag says whether the paragraph-local token range
   * intersects a range of the matching set; the stem comes from the token
   * text, word or not. `translate` throws if the token starts before the
   * paragraph.
   */
  function ConstructToken(nlp: Nlp, tokenRange: TextRange, tokenText: string, tokenPosTag: string,
                          paragraph: ExtractedParagraph, paragraphStart: int): (res: Result<Node>)
    requires WellFormed(tokenRange)
    ensures res.Ok? <==> tokenRange.start >= paragraphStart
    ensures res.Err? ==> res.error == IllegalArgument
    ensures res.Ok? ==> res.value.Token? && res.value.range == tokenRange
  {
    var translated := Translate(tokenRange, -1 * paragraphStart);
    if translated.Err? then Err(translated.error)
    else
      var local := translated.value;
      var formatting := paragraph.formatting;
      Ok(NewToken(tokenRange, tokenText, tokenPosTag, nlp.stem(tokenText),
        IntersectsRangeSet(local, FormattedText(formatting, Bold)),
        IntersectsRangeSet(local, FormattedText(formatting, Italics)),
        IntersectsRangeSet(local, FormattedText(formatting, Underline)),
        IntersectsRangeSet(local, paragraph.quoted)))
  }

  /**
   * The token carries the tagger's part of speech, the stemmer's stem, the
   * word as `extractWord` spells it, and a style flag exactly when one of the
   * paragraph's runs with that style, or one of its quotes, overlaps it.
   */
  lemma {:induction false} ConstructTokenInfo(nlp: Nlp, tokenRange: TextRange, tokenText: string, tokenPosTag: string,
                           paragraph: ExtractedParagraph, paragraphStart: int)
    requires WellFormed(tokenRange) && tokenRange.start >= paragraphStart
    ensures var t := ConstructToken(nlp, tokenRange, tokenText, tokenPosTag, paragraph, paragraphStart).value;
      var local := LocalRange(tokenRange, paragraphStart);
      && t.info.posTag == tokenPosTag
      && t.info.wordStem == nlp.stem(tokenText)
      && t.info.word == ExtractWord(tokenText)
      && (t.info.bold <==> exists x :: x in FormattedText(paragraph.formatting, Bold) && Intersects(x, local))
      && (t.info.italics <==> exists x :: x in FormattedText(paragraph.formatting, Italics) && Intersects(x, local))
      && (t.info.underline <==> exists x :: x in FormattedText(paragraph.formatting, Underline) && Intersects(x, local))
      && (t.info.quoted <==> exists x :: x in paragraph.quoted && Intersects(x, local))
  {
  }

  /** The token loop of `generateTokensFromSentence` from token i on; `tags[i]` throws past the tag array. */
  function TokensFrom(nlp: Nlp, ranges: seq<TextRange>, texts: seq<string>, tags: seq<string>,
                      paragraph: ExtractedParagraph, paragraphStart: int, i: nat): (res: Result<seq<Node>>)
    requires i <= |ranges| <= |texts|
    requires forall k :: 0 <= k < |ranges| ==> WellFormed(ranges[k])
    ensures res.Ok? ==> |res.value| == |ranges| - i && forall k :: 0 <= k < |res.value| ==> res.value[k].Token?
    decreases |ranges| - i
  {
    if i == |ranges| then Ok([])
    else if i >= |tags| then Err(IndexOutOfBounds)
    else
      var t := ConstructToken(nlp, ranges[i], texts[i], tags[i], paragraph, paragraphStart);
      if t.Err? then Err(t.error)
      else
        var rest := TokensFrom(nlp, ranges, texts, tags, paragraph, paragraphStart, i + 1);
        if rest.Err? then Err(rest.error) else Ok([t.value] + rest.value)
  }

  /** The tokens `generateTokensFromSentence` builds for the sentence over `sentenceRange`. */
  function SentenceTokens(nlp: Nlp, sentenceRange: TextRange, paragraph: ExtractedParagraph, paragraphStart: int): (res: Result<seq<Node>>)
    ensures res.Ok? ==> forall k :: 0 <= k < |res.value| ==> res.value[k].Token?
  {
    var sentence := CoveredText(LocalRange(sentenceRange, paragraphStart), paragraph.text);
    if sentence.Err? then Err(sentence.error)
    else
      var tokenSpans := nlp.tokenizePos(sentence.value);
      var tokenTexts := SpansToStrings(tokenSpans, sentence.value);
      if tokenTexts.Err? then Err(tokenTexts.error)
      else
        var tokenPosTags := nlp.tag(tokenTexts.value);
        var ranges := SpanRanges(tokenSpans, sentenceRange);
        if ranges.Err? then Err(ranges.error)
        else TokensFrom(nlp, ranges.value, tokenTexts.value, tokenPosTags, paragraph, paragraphStart, 0)
  }

  method GenerateTokensFromSentence(nlp: Nlp, sentenceRange: TextRange, paragraph: ExtractedParagraph, paragraphStart: int)
    returns (res: Result<seq<Node>>)
    ensures res == SentenceTokens(nlp, sentenceRange, paragraph, paragraphStart)
  {
    var sentence :- CoveredText(LocalRange(sentenceRange, paragraphStart), paragraph.text);
    var tokenSpans := nlp.tokenizePos(sentence);
    var tokenTexts :- SpansToStrings(tokenSpans, sentence);
    var tokenPosTags := nlp.tag(tokenTexts);
    var ranges :- GenerateTextRangesFromSpans(tokenSpans, sentenceRange);
    ghost var spec := TokensFrom(nlp, ranges, tokenTexts, tokenPosTags, paragraph, paragraphStart, 0);
    var tokens: seq<Node> := [];
    assert spec == Prepend([], spec);
    for i := 0 to |ranges|
      invariant spec == Prepend(tokens, TokensFrom(nlp, ranges, tokenTexts, tokenPosTags, paragraph, paragraphStart, i))
    {
      if i >= |tokenPosTags| {
        return Err(IndexOutOfBounds);
      }
      var t :- ConstructToken(nlp, ranges[i], tokenTexts[i], tokenPosTags[i], paragraph, paragraphStart);
      assert forall rest :: tokens + ([t] + rest) == (tokens + [t]) + rest;
      tokens := tokens + [t];
    }
    assert tokens + [] == tokens;
    return Ok(tokens);
  }

  // ---------------------------------------------------------------------
  // Sentences and paragraphs
  // ---------------------------------------------------------------------

  /**
   * What the sentence loop of `generateParagraphFromSource` sees of
   * `generateTokensFromSentence`: a function from a sentence range to its
   * tokens.
   */
  type SentenceTokenizer = TextRange -> Result<seq<Node>>

  /** Every list `tokenize` returns holds tokens only. */
  ghost predicate TokenizesTokens(tokenize: SentenceTokenizer)
  {
    forall r: TextRange :: tokenize(r).Ok? ==> forall k :: 0 <= k < |tokenize(r).value| ==> tokenize(r).value[k].Token?
  }

  /** The parser's own token construction for the sentences of one paragraph, as a tokenizer. */
  function ParagraphTokenizer(nlp: Nlp, paragraph: ExtractedParagraph, paragraphStart: int): (tokenize: SentenceTokenizer)
    ensures TokenizesTokens(tokenize)
  {
    (r: TextRange) => SentenceTokens(nlp, r, paragraph, paragraphStart)
  }

  /** The sentence loop of `generateParagraphFromSource`: a sentence per range, from range i on. */
  function SentencesFrom(tokenize: SentenceTokenizer, ranges: seq<TextRange>, i: nat): (res: Result<seq<Node>>)
    requires TokenizesTokens(tokenize)
    requires i <= |ranges| && forall k :: 0 <= k < |ranges| ==> WellFormed(ranges[k])
    ensures res.Ok? ==> forall k :: 0 <= k < |res.value| ==> res.value[k].Sentence?
    decreases |ranges| - i
  {
    if i == |ranges| then Ok([])
    else
      var tokens := tokenize(ranges[i]);
      if tokens.Err? then Err(tokens.error)
      else
        var sentence := NewSentence(ranges[i], tokens.value);
        if sentence.Err? then Err(sentence.error)
        else
          var rest := SentencesFrom(tokenize, ranges, i + 1);
          if rest.Err? then Err(rest.error) else Ok([sentence.value] + rest.value)
  }

  /**
   * The `TextProcessingProgressMonitor` of `parseStory`: the length of the
   * story text, and `cancelsAt(k)`, whether the monitor it delegates to
   * raises TaskCanceledException when offset k is reported.
   */
  datatype TextMonitor = TextMonitor(textLength: int, cancelsAt: int -> bool)

  /**
   * `reportProgress(currentTextPosition)`: an offset outside
   * [0, textLength - 1] is an IllegalArgumentException; otherwise the
   * delegate may cancel.
   */
  function ReportProgress(monitor: TextMonitor, position: int): Option<Error>
  {
    if !(0 <= position <= monitor.textLength - 1) then Some(IllegalArgument)
    else if monitor.cancelsAt(position) then Some(TaskCanceled)
    else None
  }

  /** The paragraph node `generateParagraphFromSource` builds for a paragraph starting at story offset `start`. */
  function ParagraphNode(nlp: Nlp, monitor: TextMonitor, paragraph: ExtractedParagraph, start: nat): (res: Result<Node>)
    ensures start >= monitor.textLength ==> res == Err(IllegalArgument)
    ensures start < monitor.textLength && monitor.cancelsAt(start) ==> res == Err(TaskCanceled)
    ensures res.Ok? ==> res.value.Paragraph? && res.value.range == TextRange(start, start + |paragraph.text|)
  {
    var reported := ReportProgress(monitor, start);
    if reported.Some? then Err(reported.value)
    else ParagraphOfSpans(nlp, paragraph, start, TextRange(start, start + |paragraph.text|))
  }

  /** The sentence ranges made from the sentence detector's spans, then the paragraph over them. */
  function ParagraphOfSpans(nlp: Nlp, paragraph: ExtractedParagraph, start: nat, range: TextRange): (res: Result<Node>)
    requires WellFormed(range)
    ensures res.Ok? ==> res.value.Paragraph? && res.value.range == range
  {
    var sentenceRanges := SpanRanges(nlp.sentPosDetect(paragraph.text), range);
    if sentenceRanges.Err? then Err(sentenceRanges.error)
    else ParagraphOfRanges(nlp, paragraph, start, range, sentenceRanges.value)
  }

  /** The rest of `generateParagraphFromSource` once the sentence ranges are known: a sentence per range, then the paragraph. */
  function ParagraphOfRanges(nlp: Nlp, paragraph: ExtractedParagraph, start: nat, range: TextRange, rs: seq<TextRange>): (res: Result<Node>)
    requires WellFormed(range) && forall k :: 0 <= k < |rs| ==> WellFormed(rs[k])
    ensures res.Ok? ==> res.value.Paragraph? && res.value.range == range
  {
    var sentences := SentencesFrom(ParagraphTokenizer(nlp, paragraph, start), rs, 0);
    if sentences.Err? then Err(sentences.error) else NewParagraph(range, sentences.value)
  }

  /** `ParagraphNode` once the sentence ranges and the sentences are known. */
  lemma {:induction false} ParagraphNodeUnfold(nlp: Nlp, monitor: TextMonitor, paragraph: ExtractedParagraph, start: nat,
                            range: TextRange, rs: seq<TextRange>, sentences: seq<Node>)
    requires ReportProgress(monitor, start).None? && range == TextRange(start, start + |paragraph.text|)
    requires SpanRanges(nlp.sentPosDetect(paragraph.text), range) == Ok(rs)
    requires SentencesFrom(ParagraphTokenizer(nlp, paragraph, start), rs, 0) == Ok(sentences)
    ensures ParagraphNode(nlp, monitor, paragraph, start) == NewParagraph(range, sentences)
  {
    ParagraphNodeSpans(nlp, monitor, paragraph, start);
    ParagraphOfSpansRanges(nlp, paragraph, start, range, rs);
  }

  lemma {:induction false} ParagraphNodeSpans(nlp: Nlp, monitor: TextMonitor, paragraph: ExtractedParagraph, start: nat)
    requires ReportProgress(monitor, start).None?
    ensures ParagraphNode(nlp, monitor, paragraph, start) == ParagraphOfSpans(nlp, paragraph, start, TextRange(start, start + |paragraph.text|))
  {
  }

  lemma {:induction false} ParagraphOfSpansRanges(nlp: Nlp, paragraph: ExtractedParagraph, start: nat, range: TextRange, rs: seq<TextRange>)
    requires WellFormed(range) && SpanRanges(nlp.sentPosDetect(paragraph.text), range) == Ok(rs)
    ensures ParagraphOfSpans(nlp, paragraph, start, range) == ParagraphOfRanges(nlp, paragraph, start, range, rs)
  {
  }

  /**
   * What the levels above the paragraph see of `generateParagraphFromSource`:
   * a function from a source paragraph and its story offset to the paragraph
   * node. Chapters, scenes and paragraph runs are defined over any builder,
   * so their proofs do not depend on how sentences and tokens are made.
   */
  type ParagraphBuilder = (ExtractedParagraph, nat) -> Result<Node>

  /** `build` is `generateParagraphFromSource` with these OpenNLP calls and this progress monitor. */
  ghost predicate BuildsWith(build: ParagraphBuilder, nlp: Nlp, monitor: TextMonitor)
  {
    forall p: ExtractedParagraph, start: nat {:trigger ParagraphNode(nlp, monitor, p, start)} :: build(p, start) == ParagraphNode(nlp, monitor, p, start)
  }

  /** Every node `build` returns is a paragraph over [start, start + length of its text). */
  ghost predicate BuildsParagraphs(build: ParagraphBuilder)
  {
    forall p: ExtractedParagraph, start: nat :: BuildsParagraphAt(build, p, start)
  }

  ghost predicate BuildsParagraphAt(build: ParagraphBuilder, p: ExtractedParagraph, start: nat)
  {
    build(p, start).Ok? ==> build(p, start).value.Paragraph? && build(p, start).value.range == TextRange(start, start + |p.text|)
  }

  /** The parser's own paragraph construction, as a builder. */
  function ParserBuilder(nlp: Nlp, monitor: TextMonitor): (build: ParagraphBuilder)
    ensures BuildsWith(build, nlp, monitor) && BuildsParagraphs(build)
  {
    (p: ExtractedParagraph, start: nat) => ParagraphNode(nlp, monitor, p, start)
  }

  lemma {:induction false} SentencesFromStep(tokenize: SentenceTokenizer, ranges: seq<TextRange>, i: nat)
    requires TokenizesTokens(tokenize)
    requires i < |ranges| && forall k :: 0 <= k < |ranges| ==> WellFormed(ranges[k])
    ensures SentencesFrom(tokenize, ranges, i) ==
      var tokens := tokenize(ranges[i]);
      if tokens.Err? then Err(tokens.error)
      else
        var sentence := NewSentence(ranges[i], tokens.value);
        if sentence.Err? then Err(sentence.error) else Prepend([sentence.value], SentencesFrom(tokenize, ranges, i + 1))
  {
  }

  method GenerateParagraphFromSource(nlp: Nlp, monitor: TextMonitor, paragraph: ExtractedParagraph, start: nat,
                                     ghost build: ParagraphBuilder)
    returns (res: Result<Node>)
    requires BuildsWith(build, nlp, monitor)
    ensures res == build(paragraph, start)
  {
    assert build(paragraph, start) == ParagraphNode(nlp, monitor, paragraph, start);
    var reported := ReportProgress(monitor, start);
    if reported.Some? {
      return Err(reported.value);
    }
    var range := TextRange(start, start + |paragraph.text|);
    var sentenceSpans := nlp.sentPosDetect(paragraph.text);
    var rangesResult := GenerateTextRangesFromSpans(sentenceSpans, range);
    if rangesResult.Err? {
      return Err(rangesResult.error);
    }
    var sentenceRanges := rangesResult.value;
    ParagraphNodeSpans(nlp, monitor, paragraph, start);
    ParagraphOfSpansRanges(nlp, paragraph, start, range, sentenceRanges);
    var sentences := GenerateSentences(nlp, paragraph, start, sentenceRanges);
    if sentences.Err? {
      return Err(sentences.error);
    }
    res := NewParagraph(range, sentences.value);
  }

  /** The sentence loop of `generateParagraphFromSource`: tokens and a sentence node per sentence range, stopping at the first error. */
  method GenerateSentences(nlp: Nlp, paragraph: ExtractedParagraph, start: nat, sentenceRanges: seq<TextRange>)
    returns (res: Result<seq<Node>>)
    requires forall k :: 0 <= k < |sentenceRanges| ==> WellFormed(sentenceRanges[k])
    ensures res == SentencesFrom(ParagraphTokenizer(nlp, paragraph, start), sentenceRanges, 0)
  {
    ghost var tokenize := ParagraphTokenizer(nlp, paragraph, start);
    ghost var spec := SentencesFrom(tokenize, sentenceRanges, 0);
    var sentences: seq<Node> := [];
    for i := 0 to |sentenceRanges|
      invariant spec == Prepend(sentences, SentencesFrom(tokenize, sentenceRanges, i))
    {
      var tokens := GenerateTokensFromSentence(nlp, sentenceRanges[i], paragraph, start);
      assert tokenize(sentenceRanges[i]) == tokens;
      SentencesFromStep(tokenize, sentenceRanges, i);
      if tokens.Err? {
        return Err(tokens.error);
      }
      var sentence := NewSentence(sentenceRanges[i], tokens.value);
      if sentence.Err? {
        return Err(sentence.error);
      }
      PrependStep(sentences, sentence.value, SentencesFrom(tokenize, sentenceRanges, i + 1));
      sentences := sentences + [sentence.value];
    }
    assert spec == Ok(sentences + []) && sentences + [] == sentences;
    res := Ok(sentences);
  }

  // ---------------------------------------------------------------------
  // Paragraph runs, story text, scenes and chapters
  //
  // The parser hands `subList` views of one paragraph list down its
  // recursion; here a view is the backing sequence with the window [i, j)
  // it covers, and the loops' indices are positions in the backing
  // sequence.
  // ---------------------------------------------------------------------

  /** `generateParagraphsFromParagraphSources` on ps[i..j]: every paragraph advances the offset by its length, whatever its type. */
  function ParagraphsFrom(build: ParagraphBuilder, ps: seq<ExtractedParagraph>, i: nat, j: nat, start: nat): (res: Result<seq<Node>>)
    requires BuildsParagraphs(build) && i <= j <= |ps|
    ensures res.Ok? ==> |res.value| == j - i && forall k :: 0 <= k < |res.value| ==> res.value[k].Paragraph?
    decreases j - i
  {
    if i == j then Ok([])
    else
      var p := build(ps[i], start);
      assert BuildsParagraphAt(build, ps[i], start);
      if p.Err? then Err(p.error)
      else
        var rest := ParagraphsFrom(build, ps, i + 1, j, start + |ps[i].text|);
        if rest.Err? then Err(rest.error) else Ok([p.value] + rest.value)
  }

  method GenerateParagraphsFromParagraphSources(nlp: Nlp, monitor: TextMonitor, sourceParagraphs: seq<ExtractedParagraph>,
                                                lo: nat, hi: nat, start: nat, ghost build: ParagraphBuilder)
    returns (res: Result<seq<Node>>)
    requires BuildsWith(build, nlp, monitor) && BuildsParagraphs(build) && lo <= hi <= |sourceParagraphs|
    ensures res == ParagraphsFrom(build, sourceParagraphs, lo, hi, start)
  {
    ghost var spec := ParagraphsFrom(build, sourceParagraphs, lo, hi, start);
    var currentCharIndex: nat := start;
    var resultParagraphs: seq<Node> := [];
    for i := lo to hi
      invariant spec == Prepend(resultParagraphs, ParagraphsFrom(build, sourceParagraphs, i, hi, currentCharIndex))
    {
      var next: nat := currentCharIndex + |sourceParagraphs[i].text|;
      ghost var tail := ParagraphsFrom(build, sourceParagraphs, i + 1, hi, next);
      var paragraph := GenerateParagraphFromSource(nlp, monitor, sourceParagraphs[i], currentCharIndex, build);
      if paragraph.Err? {
        return Err(paragraph.error);
      }
      var p := paragraph.value;
      PrependStep(resultParagraphs, p, tail);
      resultParagraphs := resultParagraphs + [p];
      currentCharIndex := next;
    }
    assert spec == Ok(resultParagraphs + []) && resultParagraphs + [] == resultParagraphs;
    return Ok(resultParagraphs);
  }

  /** `generateStoryTextFromParagraphs`: the TEXT paragraphs' texts, in order; other types add nothing. */
  function StoryText(ps: seq<ExtractedParagraph>): string
  {
    if ps == [] then ""
    else StoryText(ps[..|ps| - 1]) + (if ps[|ps| - 1].ptype == Text then ps[|ps| - 1].text else "")
  }

  lemma {:induction false} StoryTextAppend(a: seq<ExtractedParagraph>, b: seq<ExtractedParagraph>)
    ensures StoryText(a + b) == StoryText(a) + StoryText(b)
    decreases |b|
  {
    if b == [] {
      assert a + b == a;
    } else {
      var b0 := b[..|b| - 1];
      assert (a + b)[..|a + b| - 1] == a + b0;
      StoryTextAppend(a, b0);
    }
  }

  /** The loop of `generateStoryTextFromParagraphs`. */
  method GenerateStoryTextFromParagraphs(paragraphs: seq<ExtractedParagraph>) returns (text: string)
    ensures text == StoryText(paragraphs)
  {
    text := "";
    for i := 0 to |paragraphs|
      invariant text == StoryText(paragraphs[..i])
    {
      assert paragraphs[..i + 1][..i] == paragraphs[..i];
      if paragraphs[i].ptype == Text {
        text := text + paragraphs[i].text;
      }
    }
    assert paragraphs[..|paragraphs|] == paragraphs;
  }

  /** The characters paragraph p contributes to the story text. */
  function TextLength(p: ExtractedParagraph): nat
  {
    if p.ptype == Text then |p.text| else 0
  }

  /** How far the scene and chapter loops advance the offset over ps[i..j]: the TEXT paragraphs' lengths. */
  function StoryLength(ps: seq<ExtractedParagraph>, i: nat, j: nat): nat
    requires i <= j <= |ps|
    decreases j - i
  {
    if i == j then 0 else TextLength(ps[i]) + StoryLength(ps, i + 1, j)
  }

  /** Extending the window by one paragraph adds that paragraph's contribution. */
  lemma {:induction false} StoryLengthSnoc(ps: seq<ExtractedParagraph>, i: nat, j: nat)
    requires i <= j < |ps|
    ensures StoryLength(ps, i, j + 1) == StoryLength(ps, i, j) + TextLength(ps[j])
    decreases j - i
  {
    if i < j {
      StoryLengthSnoc(ps, i + 1, j);
    }
  }

  /** The offset the loops reach over a prefix is the length of that prefix's story text. */
  lemma {:induction false} StoryLengthIsTextLength(ps: seq<ExtractedParagraph>, n: nat)
    requires n <= |ps|
    ensures StoryLength(ps, 0, n) == |StoryText(ps[..n])|
    decreases n
  {
    if n > 0 {
      StoryLengthIsTextLength(ps, n - 1);
      StoryLengthSnoc(ps, 0, n - 1);
      assert ps[..n][..n - 1] == ps[..n - 1];
    }
  }

  /** The summed text lengths of ps[i..j], however typed: how far `generateParagraphsFromParagraphSources` advances. */
  function TextLengths(ps: seq<ExtractedParagraph>, i: nat, j: nat): nat
    requires i <= j <= |ps|
    decreases j - i
  {
    if i == j then 0 else |ps[i].text| + TextLengths(ps, i + 1, j)
  }

  /** The end of the run of type `t` from index i within ps[..j]: the loops "while the type is t, step". */
  function SkipRun(ps: seq<ExtractedParagraph>, i: nat, j: nat, t: ParagraphType): (r: nat)
    requires i <= j <= |ps|
    ensures i <= r <= j
    ensures r < j ==> ps[r].ptype != t
    decreases j - i
  {
    if i < j && ps[i].ptype == t then SkipRun(ps, i + 1, j, t) else i
  }

  /** Every paragraph the run skips has type `t`. */
  lemma {:induction false} SkipRunAll(ps: seq<ExtractedParagraph>, i: nat, j: nat, t: ParagraphType)
    requires i <= j <= |ps|
    ensures forall k :: i <= k < SkipRun(ps, i, j, t) ==> ps[k].ptype == t
    decreases j - i
  {
    if i < j && ps[i].ptype == t {
      SkipRunAll(ps, i + 1, j, t);
    }
  }

  /** The next paragraph of type `t` from index i within ps[..j], or j: the loops "while the type is not t, step". */
  function NextOf(ps: seq<ExtractedParagraph>, i: nat, j: nat, t: ParagraphType): (r: nat)
    requires i <= j <= |ps|
    ensures i <= r <= j
    ensures r < j ==> ps[r].ptype == t
    ensures i < j && ps[i].ptype != t ==> i < r
    decreases j - i
  {
    if i < j && ps[i].ptype != t then NextOf(ps, i + 1, j, t) else i
  }

  /** No paragraph before the one found has type `t`. */
  lemma {:induction false} NextOfAll(ps: seq<ExtractedParagraph>, i: nat, j: nat, t: ParagraphType)
    requires i <= j <= |ps|
    ensures forall k :: i <= k < NextOf(ps, i, j, t) ==> ps[k].ptype != t
    decreases j - i
  {
    if i < j && ps[i].ptype != t {
      NextOfAll(ps, i + 1, j, t);
    }
  }

  /** One scene: the paragraphs of the run [b, e), over the characters from `start` to the run's end. */
  function SceneAt(build: ParagraphBuilder, ps: seq<ExtractedParagraph>, b: nat, e: nat, start: nat): (res: Result<Node>)
    requires BuildsParagraphs(build) && b <= e <= |ps|
    ensures res.Ok? ==> res.value.Scene?
  {
    var paragraphs := ParagraphsFrom(build, ps, b, e, start);
    if paragraphs.Err? then Err(paragraphs.error)
    else NewScene(TextRange(start, start + StoryLength(ps, b, e)), paragraphs.value)
  }

  /**
   * `generateScenesFromParagraphs` on ps[i..j]: skip leading scene breaks,
   * take the run up to the next scene break as one scene over
   * [start, start + length of its TEXT), and go on with the rest from the
   * scene's end. The paragraphs of the run are laid out from `start`
   * whatever their type.
   */
  function ScenesFrom(build: ParagraphBuilder, ps: seq<ExtractedParagraph>, i: nat, j: nat, start: nat): (res: Result<seq<Node>>)
    requires BuildsParagraphs(build) && i <= j <= |ps|
    ensures res.Ok? ==> forall k :: 0 <= k < |res.value| ==> res.value[k].Scene?
    decreases j - i
  {
    if i == j then Ok([])
    else
      var b := SkipRun(ps, i, j, SceneBreak);
      var e := NextOf(ps, b, j, SceneBreak);
      var scene := SceneAt(build, ps, b, e, start);
      if scene.Err? then Err(scene.error)
      else Prepend([scene.value], ScenesFrom(build, ps, e, j, start + StoryLength(ps, b, e)))
  }

  /** `ScenesFrom` on a non-empty window, once its first scene's paragraphs are known. */
  lemma {:induction false} ScenesFromUnfold(build: ParagraphBuilder, ps: seq<ExtractedParagraph>, i: nat, j: nat, start: nat,
                                            b: nat, e: nat, scene: Result<Node>, rest: Result<seq<Node>>)
    requires BuildsParagraphs(build) && i < j <= |ps|
    requires b == SkipRun(ps, i, j, SceneBreak) && e == NextOf(ps, b, j, SceneBreak)
    requires scene == SceneAt(build, ps, b, e, start)
    requires rest == ScenesFrom(build, ps, e, j, start + StoryLength(ps, b, e))
    ensures ScenesFrom(build, ps, i, j, start) == if scene.Err? then Err(scene.error) else Prepend([scene.value], rest)
  {
  }

  /** `ScenesFrom` on a non-empty window: its first scene, then the rest of the window. */
  lemma {:induction false} ScenesFromFirst(build: ParagraphBuilder, ps: seq<ExtractedParagraph>, i: nat, j: nat, start: nat,
                                           b: nat, e: nat, end: nat, scene: Node)
    requires BuildsParagraphs(build) && i < j <= |ps|
    requires b == SkipRun(ps, i, j, SceneBreak) && e == NextOf(ps, b, j, SceneBreak) && end == start + StoryLength(ps, b, e)
    requires SceneAt(build, ps, b, e, start) == Ok(scene)
    ensures ScenesFrom(build, ps, i, j, start) == Prepend([scene], ScenesFrom(build, ps, e, j, end))
  {
  }

  /** The first loop of `generateScenesFromParagraphs`: the index past the leading scene breaks. */
  method SkipSceneBreaks(paragraphs: seq<ExtractedParagraph>, lo: nat, hi: nat) returns (i: nat)
    requires lo <= hi <= |paragraphs|
    ensures i == SkipRun(paragraphs, lo, hi, SceneBreak)
  {
    i := lo;
    while i < hi && paragraphs[i].ptype == SceneBreak
      invariant lo <= i <= hi
      invariant SkipRun(paragraphs, i, hi, SceneBreak) == SkipRun(paragraphs, lo, hi, SceneBreak)
      decreases hi - i
    {
      i := i + 1;
    }
  }

  /**
   * The loops "step to the next paragraph of type `t`, counting TEXT
   * lengths": the index where the run ends and the offset reached.
   */
  method ScanToNext(paragraphs: seq<ExtractedParagraph>, lo: nat, hi: nat, t: ParagraphType, startingCharIndex: nat)
    returns (i: nat, currentCharIndex: nat)
    requires lo <= hi <= |paragraphs|
    ensures i == NextOf(paragraphs, lo, hi, t)
    ensures currentCharIndex == startingCharIndex + StoryLength(paragraphs, lo, i)
  {
    i := lo;
    currentCharIndex := startingCharIndex;
    while i < hi && paragraphs[i].ptype != t
      invariant lo <= i <= hi
      invariant NextOf(paragraphs, i, hi, t) == NextOf(paragraphs, lo, hi, t)
      invariant currentCharIndex == startingCharIndex + StoryLength(paragraphs, lo, i)
      decreases hi - i
    {
      StoryLengthSnoc(paragraphs, lo, i);
      if paragraphs[i].ptype == Text {
        currentCharIndex := currentCharIndex + |paragraphs[i].text|;
      }
      i := i + 1;
    }
  }

  method GenerateScenesFromParagraphs(nlp: Nlp, monitor: TextMonitor, paragraphs: seq<ExtractedParagraph>, lo: nat, hi: nat,
                                      startingCharIndex: nat, ghost build: ParagraphBuilder)
    returns (res: Result<seq<Node>>)
    requires BuildsWith(build, nlp, monitor) && BuildsParagraphs(build) && lo <= hi <= |paragraphs|
    ensures res == ScenesFrom(build, paragraphs, lo, hi, startingCharIndex)
    decreases hi - lo
  {
    if lo == hi {
      return Ok([]);
    }
    var sceneStartParagraphIndex := SkipSceneBreaks(paragraphs, lo, hi);
    var currentParagraphIndex, currentCharIndex := ScanToNext(paragraphs, sceneStartParagraphIndex, hi, SceneBreak, startingCharIndex);
    var generatedParagraphs := GenerateParagraphsFromParagraphSources(nlp, monitor, paragraphs, sceneStartParagraphIndex,
                                                                      currentParagraphIndex, startingCharIndex, build);
    if generatedParagraphs.Err? {
      return Err(generatedParagraphs.error);
    }
    var firstScene := NewScene(TextRange(startingCharIndex, currentCharIndex), generatedParagraphs.value);
    assert firstScene == SceneAt(build, paragraphs, sceneStartParagraphIndex, currentParagraphIndex, startingCharIndex);
    if firstScene.Err? {
      return Err(firstScene.error);
    }
    ScenesFromFirst(build, paragraphs, lo, hi, startingCharIndex, sceneStartParagraphIndex, currentParagraphIndex,
                    currentCharIndex, firstScene.value);
    var scenes := GenerateScenesFromParagraphs(nlp, monitor, paragraphs, currentParagraphIndex, hi, currentCharIndex, build);
    if scenes.Err? {
      return Err(scenes.error);
    }
    return Ok([firstScene.value] + scenes.value);
  }

  /** The texts of ps[i..j], each followed by `sep`: the title builders of `parseStory` and `generateChaptersFromParagraphs`. */
  function JoinTexts(ps: seq<ExtractedParagraph>, i: nat, j: nat, sep: string): string
    requires i <= j <= |ps|
    decreases j
  {
    if i == j then "" else JoinTexts(ps, i, j - 1, sep) + ps[j - 1].text + sep
  }

  /** One chapter: the title run [i, t) and the scenes of [t, e), over the characters from `start` to the run's end. */
  function ChapterAt(build: ParagraphBuilder, ps: seq<ExtractedParagraph>, i: nat, t: nat, e: nat, start: nat): (res: Result<Node>)
    requires BuildsParagraphs(build) && i <= t <= e <= |ps|
    ensures res.Ok? ==> res.value.Chapter?
  {
    var scenes := ScenesFrom(build, ps, t, e, start);
    if scenes.Err? then Err(scenes.error)
    else NewChapter(TextRange(start, start + StoryLength(ps, t, e)), scenes.value, Trim(JoinTexts(ps, i, t, "\n")))
  }

  /** `ChapterAt` once the result of its scenes is known. */
  lemma {:induction false} ChapterAtUnfold(build: ParagraphBuilder, ps: seq<ExtractedParagraph>, i: nat, t: nat, e: nat, start: nat,
                                           scenes: Result<seq<Node>>)
    requires BuildsParagraphs(build) && i <= t <= e <= |ps|
    requires ScenesFrom(build, ps, t, e, start) == scenes
    ensures ChapterAt(build, ps, i, t, e, start) ==
      if scenes.Err? then Err(scenes.error)
      else NewChapter(TextRange(start, start + StoryLength(ps, t, e)), scenes.value, Trim(JoinTexts(ps, i, t, "\n")))
  {
  }

  /** `ChaptersFrom` on a non-empty window, once its first chapter's paragraphs are known. */
  lemma {:induction false} ChaptersFromUnfold(build: ParagraphBuilder, ps: seq<ExtractedParagraph>, i: nat, j: nat, start: nat,
                                              t: nat, e: nat, chapter: Result<Node>, rest: Result<seq<Node>>)
    requires BuildsParagraphs(build) && i < j <= |ps|
    requires t == SkipRun(ps, i, j, ChapterTitle) && e == NextOf(ps, t, j, ChapterTitle)
    requires chapter == ChapterAt(build, ps, i, t, e, start)
    requires rest == ChaptersFrom(build, ps, e, j, start + StoryLength(ps, t, e))
    ensures ChaptersFrom(build, ps, i, j, start) == Chain(chapter, rest)
  {
    ChaptersFromFirst(build, ps, i, j, start, t, e);
    ChaptersAfterFirst(build, ps, i, j, start, t, e);
  }

  /** The chapters of a window once its first chapter's bounds are given: that chapter, then the rest. */
  lemma {:induction false} ChaptersAfterFirst(build: ParagraphBuilder, ps: seq<ExtractedParagraph>, i: nat, j: nat, start: nat, t: nat, e: nat)
    requires BuildsParagraphs(build) && i <= t <= e <= j <= |ps| && i < e
    ensures ChaptersAfter(build, ps, i, j, start, t, e) ==
      Chain(ChapterAt(build, ps, i, t, e, start), ChaptersFrom(build, ps, e, j, start + StoryLength(ps, t, e)))
  {
  }

  /** A non-empty window: its first chapter's title run ends at `t` and its text at `e`. */
  lemma {:induction false} ChaptersFromFirst(build: ParagraphBuilder, ps: seq<ExtractedParagraph>, i: nat, j: nat, start: nat, t: nat, e: nat)
    requires BuildsParagraphs(build) && i < j <= |ps|
    requires t == SkipRun(ps, i, j, ChapterTitle) && e == NextOf(ps, t, j, ChapterTitle)
    ensures i <= t <= e <= j && i < e
    ensures ChaptersFrom(build, ps, i, j, start) == ChaptersAfter(build, ps, i, j, start, t, e)
  {
  }

  /**
   * `generateChaptersFromParagraphs` on ps[i..j]: the leading CHAPTER_TITLE
   * run, joined with "\n" and trimmed, is the title; the chapter runs to the
   * next CHAPTER_TITLE over [start, start + length of its TEXT), its scenes
   * are built from `start`, and the rest goes on from the chapter's end.
   */
  function ChaptersFrom(build: ParagraphBuilder, ps: seq<ExtractedParagraph>, i: nat, j: nat, start: nat): (res: Result<seq<Node>>)
    requires BuildsParagraphs(build) && i <= j <= |ps|
    ensures res.Ok? ==> forall k :: 0 <= k < |res.value| ==> res.value[k].Chapter?
    decreases j - i, 1
  {
    if i == j then Ok([])
    else
      var t := SkipRun(ps, i, j, ChapterTitle);
      ChaptersAfter(build, ps, i, j, start, t, NextOf(ps, t, j, ChapterTitle))
  }

  /** The chapter whose title run ends at `t` and whose text ends at `e`, then the chapters from `e` on. */
  function ChaptersAfter(build: ParagraphBuilder, ps: seq<ExtractedParagraph>, i: nat, j: nat, start: nat, t: nat, e: nat): (res: Result<seq<Node>>)
    requires BuildsParagraphs(build) && i <= t <= e <= j <= |ps| && i < e
    ensures res.Ok? ==> forall k :: 0 <= k < |res.value| ==> res.value[k].Chapter?
    decreases j - i, 0
  {
    Chain(ChapterAt(build, ps, i, t, e, start), ChaptersFrom(build, ps, e, j, start + StoryLength(ps, t, e)))
  }

  /** A first node followed by the rest: the first node's failure wins over the rest's. */
  function Chain(first: Result<Node>, rest: Result<seq<Node>>): (res: Result<seq<Node>>)
    ensures first.Err? ==> res == Err(first.error)
    ensures first.Ok? ==> res == Prepend([first.value], rest)
  {
    if first.Err? then Err(first.error) else Prepend([first.value], rest)
  }

  /** The first loop of `generateChaptersFromParagraphs`: the title run and the text it builds. */
  method CollectChapterTitle(paragraphs: seq<ExtractedParagraph>, lo: nat, hi: nat) returns (i: nat, title: string)
    requires lo <= hi <= |paragraphs|
    ensures i == SkipRun(paragraphs, lo, hi, ChapterTitle)
    ensures title == JoinTexts(paragraphs, lo, i, "\n")
  {
    i := lo;
    title := "";
    while i < hi && paragraphs[i].ptype == ChapterTitle
      invariant lo <= i <= hi
      invariant SkipRun(paragraphs, i, hi, ChapterTitle) == SkipRun(paragraphs, lo, hi, ChapterTitle)
      invariant title == JoinTexts(paragraphs, lo, i, "\n")
      decreases hi - i
    {
      title := title + paragraphs[i].text + "\n";
      i := i + 1;
    }
  }

  method GenerateChaptersFromParagraphs(nlp: Nlp, monitor: TextMonitor, paragraphs: seq<ExtractedParagraph>, lo: nat, hi: nat,
                                        startingCharIndex: nat, ghost build: ParagraphBuilder)
    returns (res: Result<seq<Node>>)
    requires BuildsWith(build, nlp, monitor) && BuildsParagraphs(build) && lo <= hi <= |paragraphs|
    ensures res == ChaptersFrom(build, paragraphs, lo, hi, startingCharIndex)
    decreases hi - lo
  {
    if lo == hi {
      return Ok([]);
    }
    var chapterStartParagraphIndex, titleBuilder := CollectChapterTitle(paragraphs, lo, hi);
    var currentParagraphIndex, currentCharIndex := ScanToNext(paragraphs, chapterStartParagraphIndex, hi, ChapterTitle, startingCharIndex);
    var scenes := GenerateScenesFromParagraphs(nlp, monitor, paragraphs, chapterStartParagraphIndex, currentParagraphIndex,
                                               startingCharIndex, build);
    ChapterAtUnfold(build, paragraphs, lo, chapterStartParagraphIndex, currentParagraphIndex, startingCharIndex, scenes);
    ghost var spec := ChapterAt(build, paragraphs, lo, chapterStartParagraphIndex, currentParagraphIndex, startingCharIndex);
    ghost var rest := ChaptersFrom(build, paragraphs, currentParagraphIndex, hi, currentCharIndex);
    ChaptersFromUnfold(build, paragraphs, lo, hi, startingCharIndex, chapterStartParagraphIndex, currentParagraphIndex, spec, rest);
    if scenes.Err? {
      return Err(scenes.error);
    }
    var firstChapter := NewChapter(TextRange(startingCharIndex, currentCharIndex), scenes.value, Trim(titleBuilder));
    assert firstChapter == spec;
    if firstChapter.Err? {
      return Err(firstChapter.error);
    }
    var chapters := GenerateChaptersFromParagraphs(nlp, monitor, paragraphs, currentParagraphIndex, hi, currentCharIndex, build);
    assert chapters == rest;
    if chapters.Err? {
      return Err(chapters.error);
    }
    return Ok([firstChapter.value] + chapters.value);
  }

  // ---------------------------------------------------------------------
  // parseStory
  // ---------------------------------------------------------------------

  /** The paragraph types `parseStory` drops before anything else. */
  predicate Dropped(t: ParagraphType)
  {
    t == Blank || t == ByLine || t == ContactInfo
  }

  /** The document's paragraphs without BLANK, BY_LINE and CONTACT_INFO ones, in order. */
  function BodyParagraphs(document: seq<ExtractedParagraph>): (ps: seq<ExtractedParagraph>)
    ensures forall k :: 0 <= k < |ps| ==> !Dropped(ps[k].ptype)
    decreases |document|
  {
    if document == [] then []
    else (if Dropped(document[0].ptype) then [] else [document[0]]) + BodyParagraphs(document[1..])
  }

  /** The filter keeps exactly the paragraphs whose type is not dropped. */
  lemma {:induction false} BodyParagraphsMembers(document: seq<ExtractedParagraph>)
    ensures forall p :: p in BodyParagraphs(document) <==> p in document && !Dropped(p.ptype)
    decreases |document|
  {
    if document != [] {
      BodyParagraphsMembers(document[1..]);
      assert document == [document[0]] + document[1..];
    }
  }

  /** The kept paragraphs of document[i..]: those of document[i] and then those of document[i + 1..]. */
  lemma {:induction false} BodyParagraphsAt(document: seq<ExtractedParagraph>, i: nat)
    requires i < |document|
    ensures BodyParagraphs(document[i..]) == (if Dropped(document[i].ptype) then [] else [document[i]]) + BodyParagraphs(document[i + 1..])
  {
    assert document[i..][0] == document[i];
    assert document[i..][1..] == document[i + 1..];
  }

  /** The filter of `parseStory`. */
  method FilterParagraphs(document: seq<ExtractedParagraph>) returns (filtered: seq<ExtractedParagraph>)
    ensures filtered == BodyParagraphs(document)
  {
    filtered := [];
    assert document[0..] == document;
    for i := 0 to |document|
      invariant BodyParagraphs(document) == filtered + BodyParagraphs(document[i..])
    {
      BodyParagraphsAt(document, i);
      ghost var rest := BodyParagraphs(document[i + 1..]);
      if !Dropped(document[i].ptype) {
        assert filtered + ([document[i]] + rest) == (filtered + [document[i]]) + rest;
        filtered := filtered + [document[i]];
      } else {
        assert [] + rest == rest;
      }
    }
    assert document[|document|..] == [];
  }

  /**
   * `parseStory`: the leading TITLE run of the kept paragraphs, each text
   * followed by " " and the whole trimmed, is the title; the story text is
   * that of all kept paragraphs; the chapters are built from offset 0 out of
   * the paragraphs after the title run.
   */
  function ParseStorySpec(build: ParagraphBuilder, document: seq<ExtractedParagraph>): (res: Result<Node>)
    requires BuildsParagraphs(build)
    ensures res.Ok? ==> res.value.Story?
  {
    var ps := BodyParagraphs(document);
    var i := SkipRun(ps, 0, |ps|, Title);
    var chapters := ChaptersFrom(build, ps, i, |ps|, 0);
    if chapters.Err? then Err(chapters.error)
    else NewStory(StoryText(ps), Trim(JoinTexts(ps, 0, i, " ")), chapters.value)
  }

  /** The monitor `parseStory` hands to the chapters: one over the length of the story text of the kept paragraphs. */
  function StoryMonitor(document: seq<ExtractedParagraph>, cancelsAt: int -> bool): TextMonitor
  {
    TextMonitor(|StoryText(BodyParagraphs(document))|, cancelsAt)
  }

  method ParseStory(nlp: Nlp, cancelsAt: int -> bool, document: seq<ExtractedParagraph>, ghost build: ParagraphBuilder)
    returns (res: Result<Node>)
    requires BuildsWith(build, nlp, StoryMonitor(document, cancelsAt)) && BuildsParagraphs(build)
    ensures res == ParseStorySpec(build, document)
  {
    var filteredList := FilterParagraphs(document);
    var title := "";
    var i: nat := 0;
    while i < |filteredList| && filteredList[i].ptype == Title
      invariant i <= |filteredList|
      invariant SkipRun(filteredList, i, |filteredList|, Title) == SkipRun(filteredList, 0, |filteredList|, Title)
      invariant title == JoinTexts(filteredList, 0, i, " ")
      decreases |filteredList| - i
    {
      title := title + filteredList[i].text + " ";
      i := i + 1;
    }
    var storyText := GenerateStoryTextFromParagraphs(filteredList);
    var monitor := TextMonitor(|storyText|, cancelsAt);
    var chapters := GenerateChaptersFromParagraphs(nlp, monitor, filteredList, i, |filteredList|, 0, build);
    if chapters.Err? {
      return Err(chapters.error);
    }
    res := NewStory(storyText, Trim(title), chapters.value);
  }
}
