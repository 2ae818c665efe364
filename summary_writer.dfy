/**
 * The docx report summary writer. It is a state machine over four fields:
 * whether the summary has ended, whether a page break is pending, the next
 * unique image id, and the buffered summary paragraphs. Ending the summary
 * puts the buffered paragraphs in front of the story document's own
 * content.
 */
module SummaryWriting {
  import opened Wrappers
  import opened Summaries

  // ---------------------------------------------------------------------
  // Paragraphs
  // ---------------------------------------------------------------------

  /** The styles the writer sets, and any other style a document's own paragraphs and runs carry. */
  datatype Style =
    | TitleStyle
    | Heading1Style
    | Heading2Style
    | TextStyle
    | KeyValueStyle
    | KeyCharacterStyle
    | DocumentStyle(id: string)

  /** The style id written into the document. */
  function StyleId(style: Style): string
  {
    match style
    case TitleStyle => "StoryInspectorTitle"
    case Heading1Style => "StoryInspectorHeading1"
    case Heading2Style => "StoryInspectorHeading2"
    case TextStyle => "StoryInspectorText"
    case KeyValueStyle => "StoryInspectorKeyValue"
    case KeyCharacterStyle => "StoryInspectorKey"
    case DocumentStyle(id) => id
  }

  /** A run: styled text, or a drawing of an image with the two ids its inline needs. */
  datatype SummaryRun =
    | TextRun(characterStyle: Option<Style>, text: string)
    | DrawingRun(image: nat, id1: int, id2: int)

  datatype ParagraphProperties = ParagraphProperties(style: Option<Style>, pageBreakBefore: bool)

  /** A paragraph. Its properties are missing (null) when it was created without any. */
  datatype Paragraph = Paragraph(properties: Option<ParagraphProperties>, runs: seq<SummaryRun>)

  /** An element of the main document part's content: a paragraph, or anything else (a table, say). */
  datatype BodyElement = ParagraphElement(paragraph: Paragraph) | OtherElement

  /** `createParagraph(styleId, runs)`: a paragraph with that style and no page break. */
  function StyledParagraph(style: Style, runs: seq<SummaryRun>): Paragraph
  {
    Paragraph(Some(ParagraphProperties(Some(style), false)), runs)
  }

  /** The paragraph `writeKeyValuePairs` makes for one pair: the key and ": " in the key style, then the value. */
  function KeyValueParagraph(pair: KeyValue): Paragraph
  {
    StyledParagraph(KeyValueStyle, [TextRun(Some(KeyCharacterStyle), pair.key + ": "), TextRun(None, pair.value)])
  }

  /** The paragraph `writeImage` makes: no paragraph properties, and one drawing run. */
  function ImageParagraph(image: nat, id1: int, id2: int): Paragraph
  {
    Paragraph(None, [DrawingRun(image, id1, id2)])
  }

  /**
   * `setPageBreakBefore`: sets the flag in the paragraph's properties, and
   * fails on a paragraph that has none.
   */
  function SetPageBreakBefore(p: Paragraph): (res: Result<Paragraph>)
    ensures res.Ok? <==> p.properties.Some?
    ensures res.Err? ==> res.error == NullPointer
    ensures res.Ok? ==>
      res.value.runs == p.runs && res.value.properties.Some? &&
      res.value.properties.value.pageBreakBefore && res.value.properties.value.style == p.properties.value.style
  {
    match p.properties
    case None => Err(NullPointer)
    case Some(props) => Ok(Paragraph(Some(props.(pageBreakBefore := true)), p.runs))
  }

  /** `writeHeading`'s style: level 0 is the title, 1 the first heading, anything higher the second; a negative level fails. */
  function HeadingStyle(headingLevel: int): (res: Result<Style>)
    ensures res.Err? <==> headingLevel < 0
    ensures res.Err? ==> res.error == IllegalArgument
    ensures headingLevel == 0 ==> res == Ok(TitleStyle)
    ensures headingLevel == 1 ==> res == Ok(Heading1Style)
    ensures headingLevel >= 2 ==> res == Ok(Heading2Style)
  {
    if headingLevel < 0 then Err(IllegalArgument)
    else if headingLevel == 0 then Ok(TitleStyle)
    else if headingLevel == 1 then Ok(Heading1Style)
    else Ok(Heading2Style)
  }

  // ---------------------------------------------------------------------
  // The writer's state and its transitions
  // ---------------------------------------------------------------------

  datatype WriterState = WriterState(summaryParagraphs: seq<Paragraph>, pageBreakNext: bool, nextUniqueImageId: int,
                                     summaryEnded: bool, content: seq<BodyElement>)

  /** The state after a call, and the exception the call raised, if any. */
  datatype Outcome = Outcome(state: WriterState, failure: Option<Error>)

  /** A new writer over a document whose main part holds `content`. */
  function Initial(content: seq<BodyElement>): WriterState
  {
    WriterState([], false, 1, false, content)
  }

  /** The paragraph as it is buffered: with a page break before it when one is pending. */
  function Buffered(p: Paragraph, pageBreakNext: bool): Paragraph
    requires pageBreakNext ==> p.properties.Some?
  {
    if pageBreakNext then SetPageBreakBefore(p).value else p
  }

  /**
   * `addParagraph`. It fails once the summary has ended, and fails on a
   * paragraph without properties while a page break is pending. Otherwise
   * the paragraph is buffered after the others, and the pending break, if
   * any, goes to it and is cleared.
   */
  function AddParagraphTo(s: WriterState, p: Paragraph): (o: Outcome)
    ensures s.summaryEnded ==> o == Outcome(s, Some(Runtime))
    ensures o.failure.None? <==> !s.summaryEnded && (s.pageBreakNext ==> p.properties.Some?)
    ensures o.failure.Some? ==> o.state == s
    ensures o.failure.None? ==>
      o.state == s.(summaryParagraphs := s.summaryParagraphs + [Buffered(p, s.pageBreakNext)], pageBreakNext := false)
  {
    if s.summaryEnded then Outcome(s, Some(Runtime))
    else if s.pageBreakNext then
      match SetPageBreakBefore(p)
      case Err(e) => Outcome(s, Some(e))
      case Ok(q) => Outcome(s.(summaryParagraphs := s.summaryParagraphs + [q], pageBreakNext := false), None)
    else Outcome(s.(summaryParagraphs := s.summaryParagraphs + [p]), None)
  }

  /** The paragraphs the pairs make, in order. */
  function KeyValueParagraphs(pairs: seq<KeyValue>): (ps: seq<Paragraph>)
    ensures |ps| == |pairs| && forall k :: 0 <= k < |pairs| ==> ps[k] == KeyValueParagraph(pairs[k])
  {
    seq(|pairs|, k requires 0 <= k < |pairs| => KeyValueParagraph(pairs[k]))
  }

  /** `writeKeyValuePairs`: one paragraph per pair, stopping at the first failure. */
  function AddPairs(s: WriterState, pairs: seq<KeyValue>): Outcome
    decreases |pairs|
  {
    if pairs == [] then Outcome(s, None)
    else
      var o := AddParagraphTo(s, KeyValueParagraph(pairs[0]));
      if o.failure.Some? then o else AddPairs(o.state, pairs[1..])
  }

  /**
   * `endReportSummary`. It fails when the summary has already ended, or
   * when the document's first element is not a paragraph (the cast) or has
   * no properties. Otherwise that first element gets a page break before
   * it, the buffered paragraphs go in front of the content, and the
   * summary ends.
   */
  function EndSummary(s: WriterState): Outcome
  {
    if s.summaryEnded then Outcome(s, Some(Runtime))
    else if s.content != [] && s.content[0].OtherElement? then Outcome(s, Some(ClassCast))
    else if s.content != [] && s.content[0].paragraph.properties.None? then Outcome(s, Some(NullPointer))
    else Outcome(s.(content := Elements(s.summaryParagraphs) + MarkFirst(s.content), summaryEnded := true), None)
  }

  /** Paragraphs as document elements. */
  function Elements(ps: seq<Paragraph>): (es: seq<BodyElement>)
    ensures |es| == |ps| && forall k :: 0 <= k < |ps| ==> es[k] == ParagraphElement(ps[k])
  {
    seq(|ps|, k requires 0 <= k < |ps| => ParagraphElement(ps[k]))
  }

  /** The content with a page break before its first element, which must then be a paragraph with properties. */
  function MarkFirst(content: seq<BodyElement>): seq<BodyElement>
    requires content != [] ==> content[0].ParagraphElement? && content[0].paragraph.properties.Some?
  {
    if content == [] then [] else [ParagraphElement(SetPageBreakBefore(content[0].paragraph).value)] + content[1..]
  }

  /**
   * One call on the writer. `writeImage` takes two image ids before it adds
   * its paragraph, so the ids are used up even when adding fails;
   * `addPageBreak` only sets the flag.
   */
  function Apply(s: WriterState, e: SummaryEvent): Outcome
  {
    match e
    case WriteHeading(heading, level) =>
      (match HeadingStyle(level)
       case Err(err) => Outcome(s, Some(err))
       case Ok(style) => AddParagraphTo(s, StyledParagraph(style, [TextRun(None, heading)])))
    case WriteText(text) => AddParagraphTo(s, StyledParagraph(TextStyle, [TextRun(None, text)]))
    case WriteKeyValuePairs(pairs) => AddPairs(s, pairs)
    case WriteImage(image) =>
      AddParagraphTo(s.(nextUniqueImageId := s.nextUniqueImageId + 2),
                     ImageParagraph(image, s.nextUniqueImageId, s.nextUniqueImageId + 1))
    case AddPageBreak => if s.summaryEnded then Outcome(s, Some(Runtime)) else Outcome(s.(pageBreakNext := true), None)
    case EndReportSummary => EndSummary(s)
  }

  /** A sequence of calls, stopping at the first one that throws. */
  function Replay(s: WriterState, events: seq<SummaryEvent>): Outcome
    decreases |events|
  {
    if events == [] then Outcome(s, None)
    else
      var o := Apply(s, events[0]);
      if o.failure.Some? then o else Replay(o.state, events[1..])
  }

  // ---------------------------------------------------------------------
  // Properties of the transitions
  // ---------------------------------------------------------------------

  /** The paragraphs of some pairs as they are buffered, the pending break going to the first. */
  function BufferedPairs(pairs: seq<KeyValue>, pageBreakNext: bool): seq<Paragraph>
    decreases |pairs|
  {
    if pairs == [] then [] else [Buffered(KeyValueParagraph(pairs[0]), pageBreakNext)] + BufferedPairs(pairs[1..], false)
  }

  /**
   * The pairs' paragraphs as buffered are one per pair, in order, and only
   * the first can carry the pending break.
   */
  lemma {:induction false} BufferedPairsSpec(pairs: seq<KeyValue>, pageBreakNext: bool)
    ensures |BufferedPairs(pairs, pageBreakNext)| == |pairs|
    ensures pairs != [] ==> BufferedPairs(pairs, pageBreakNext)[0] == Buffered(KeyValueParagraph(pairs[0]), pageBreakNext)
    ensures forall k :: 0 < k < |pairs| ==> BufferedPairs(pairs, pageBreakNext)[k] == KeyValueParagraph(pairs[k])
    decreases |pairs|
  {
    if pairs != [] {
      BufferedPairsSpec(pairs[1..], false);
      assert forall k :: 0 < k < |pairs| ==> pairs[1..][k - 1] == pairs[k];
    }
  }

  /**
   * Writing key/value pairs on a summary that has not ended buffers one
   * paragraph per pair, in order; a pending break goes to the first of them
   * and is kept when there are none.
   */
  lemma {:induction false} AddPairsSpec(s: WriterState, pairs: seq<KeyValue>)
    requires !s.summaryEnded
    ensures AddPairs(s, pairs) ==
      Outcome(s.(summaryParagraphs := s.summaryParagraphs + BufferedPairs(pairs, s.pageBreakNext),
                 pageBreakNext := s.pageBreakNext && pairs == []), None)
    decreases |pairs|
  {
    if pairs != [] {
      var t := AddPairsFirst(s, pairs);
      AddPairsSpec(t, pairs[1..]);
      assert t.summaryParagraphs + BufferedPairs(pairs[1..], false) == s.summaryParagraphs + BufferedPairs(pairs, s.pageBreakNext);
    }
  }

  /** The first pair's paragraph, buffered; the rest of the pairs are written from there. */
  lemma {:induction false} AddPairsFirst(s: WriterState, pairs: seq<KeyValue>) returns (t: WriterState)
    requires !s.summaryEnded && pairs != []
    ensures t == s.(summaryParagraphs := s.summaryParagraphs + [Buffered(KeyValueParagraph(pairs[0]), s.pageBreakNext)],
                    pageBreakNext := false)
    ensures AddPairs(s, pairs) == AddPairs(t, pairs[1..])
    ensures BufferedPairs(pairs, s.pageBreakNext) == [Buffered(KeyValueParagraph(pairs[0]), s.pageBreakNext)] + BufferedPairs(pairs[1..], false)
  {
    t := AddParagraphTo(s, KeyValueParagraph(pairs[0])).state;
  }

  /** After the summary has ended, every call fails and only an image call changes anything: it still uses up two ids. */
  lemma {:induction false} EndedRejectsAll(s: WriterState, e: SummaryEvent)
    requires s.summaryEnded
    requires !(e.WriteKeyValuePairs? && e.pairs == [])
    requires !(e.WriteHeading? && e.headingLevel < 0)
    ensures Apply(s, e).failure == Some(Runtime)
    ensures Apply(s, e).state == if e.WriteImage? then s.(nextUniqueImageId := s.nextUniqueImageId + 2) else s
  {
    if e.WriteKeyValuePairs? {
      assert AddPairs(s, e.pairs) == AddParagraphTo(s, KeyValueParagraph(e.pairs[0]));
    }
  }

  /** Consecutive page breaks collapse into one: a second break changes nothing. */
  lemma {:induction false} PageBreaksCollapse(s: WriterState)
    requires !s.summaryEnded
    ensures Replay(s, [AddPageBreak, AddPageBreak]) == Replay(s, [AddPageBreak])
  {
    var t := s.(pageBreakNext := true);
    assert Apply(s, AddPageBreak) == Outcome(t, None);
    assert Apply(t, AddPageBreak) == Outcome(t, None);
    assert [AddPageBreak, AddPageBreak][1..] == [AddPageBreak];
    assert Replay(t, [AddPageBreak]) == Outcome(t, None);
  }

  /** A second `endReportSummary` fails and changes nothing. */
  lemma {:induction false} EndTwiceFails(s: WriterState)
    requires Apply(s, EndReportSummary).failure.None?
    ensures Apply(s, EndReportSummary).state.summaryEnded
    ensures Replay(s, [EndReportSummary, EndReportSummary]) ==
      Outcome(Apply(s, EndReportSummary).state, Some(Runtime))
  {
    assert [EndReportSummary, EndReportSummary][1..] == [EndReportSummary];
  }

  /** Replaying calls one after the other is replaying them all. */
  lemma {:induction false} ReplayAppend(s: WriterState, a: seq<SummaryEvent>, b: seq<SummaryEvent>)
    ensures Replay(s, a + b) ==
      if Replay(s, a).failure.Some? then Replay(s, a) else Replay(Replay(s, a).state, b)
    decreases |a|
  {
    if a == [] {
      assert a + b == b;
    } else {
      assert (a + b)[0] == a[0] && (a + b)[1..] == a[1..] + b;
      var o := Apply(s, a[0]);
      if o.failure.None? {
        ReplayAppend(o.state, a[1..], b);
      }
    }
  }

  // ---------------------------------------------------------------------
  // Image ids
  // ---------------------------------------------------------------------

  /** The image ids in some runs, in order. */
  function RunIds(runs: seq<SummaryRun>): seq<int>
    decreases |runs|
  {
    if runs == [] then []
    else
      var last := runs[|runs| - 1];
      RunIds(runs[..|runs| - 1]) + (if last.DrawingRun? then [last.id1, last.id2] else [])
  }

  /** The image ids of the buffered paragraphs, in order. */
  function DrawingIds(ps: seq<Paragraph>): seq<int>
    decreases |ps|
  {
    if ps == [] then [] else DrawingIds(ps[..|ps| - 1]) + RunIds(ps[|ps| - 1].runs)
  }

  predicate StrictlyIncreasing(ids: seq<int>)
  {
    forall i, j :: 0 <= i < j < |ids| ==> ids[i] < ids[j]
  }

  predicate IdsBetween(ids: seq<int>, low: int, high: int)
  {
    forall k :: 0 <= k < |ids| ==> low <= ids[k] < high
  }

  /** The ids used so far are positive, strictly increasing, and below the next id. */
  predicate ImageIdsFresh(s: WriterState)
  {
    var ids := DrawingIds(s.summaryParagraphs);
    StrictlyIncreasing(ids) && IdsBetween(ids, 1, s.nextUniqueImageId) && s.nextUniqueImageId >= 1
  }

  lemma {:induction false} DrawingIdsAppend(ps: seq<Paragraph>, p: Paragraph)
    ensures DrawingIds(ps + [p]) == DrawingIds(ps) + RunIds(p.runs)
  {
    assert (ps + [p])[..|ps|] == ps;
  }

  lemma {:induction false} TextRunsHaveNoIds(runs: seq<SummaryRun>)
    requires forall k :: 0 <= k < |runs| ==> runs[k].TextRun?
    ensures RunIds(runs) == []
    decreases |runs|
  {
    if runs != [] {
      TextRunsHaveNoIds(runs[..|runs| - 1]);
    }
  }

  lemma {:induction false} ImageRunIds(image: nat, id1: int, id2: int)
    ensures RunIds(ImageParagraph(image, id1, id2).runs) == [id1, id2]
  {
    var runs := ImageParagraph(image, id1, id2).runs;
    assert runs[..0] == [];
  }

  /** Buffering a paragraph of text runs keeps the image ids fresh. */
  lemma {:induction false} AddTextParagraphKeepsIds(s: WriterState, p: Paragraph)
    requires ImageIdsFresh(s)
    requires forall k :: 0 <= k < |p.runs| ==> p.runs[k].TextRun?
    ensures ImageIdsFresh(AddParagraphTo(s, p).state)
    ensures AddParagraphTo(s, p).state.nextUniqueImageId == s.nextUniqueImageId
  {
    var o := AddParagraphTo(s, p);
    if o.failure.None? {
      var q := Buffered(p, s.pageBreakNext);
      DrawingIdsAppend(s.summaryParagraphs, q);
      TextRunsHaveNoIds(q.runs);
      assert DrawingIds(o.state.summaryParagraphs) == DrawingIds(s.summaryParagraphs);
    }
  }

  lemma {:induction false} AddPairsKeepsIds(s: WriterState, pairs: seq<KeyValue>)
    requires ImageIdsFresh(s)
    ensures ImageIdsFresh(AddPairs(s, pairs).state)
    ensures AddPairs(s, pairs).state.nextUniqueImageId == s.nextUniqueImageId
    decreases |pairs|
  {
    if pairs != [] {
      var p := KeyValueParagraph(pairs[0]);
      AddTextParagraphKeepsIds(s, p);
      AddPairsKeepsIds(AddParagraphTo(s, p).state, pairs[1..]);
    }
  }

  /** An image takes the next two ids, after every id used so far. */
  lemma {:induction false} WriteImageKeepsIds(s: WriterState, image: nat)
    requires ImageIdsFresh(s)
    ensures ImageIdsFresh(Apply(s, WriteImage(image)).state)
    ensures Apply(s, WriteImage(image)).state.nextUniqueImageId == s.nextUniqueImageId + 2
  {
    var n := s.nextUniqueImageId;
    var p := ImageParagraph(image, n, n + 1);
    var o := AddParagraphTo(s.(nextUniqueImageId := n + 2), p);
    if o.failure.None? {
      var ids := DrawingIds(s.summaryParagraphs);
      DrawingIdsAppend(s.summaryParagraphs, p);
      ImageRunIds(image, n, n + 1);
      assert o.state.summaryParagraphs == s.summaryParagraphs + [p];
      IncreasingAppend(ids, n);
    }
  }

  /** Two ids from the next one on, after ids all below it, keep the ids increasing and below the new next id. */
  lemma {:induction false} IncreasingAppend(ids: seq<int>, n: int)
    requires StrictlyIncreasing(ids) && n >= 1 && IdsBetween(ids, 1, n)
    ensures StrictlyIncreasing(ids + [n, n + 1]) && IdsBetween(ids + [n, n + 1], 1, n + 2)
  {
  }

  /**
   * Every call keeps the image ids fresh and never lowers the next id, so
   * the ids of all images written are distinct, start at 1 and increase;
   * each image uses two of them.
   */
  lemma {:induction false} ApplyKeepsImageIdsFresh(s: WriterState, e: SummaryEvent)
    requires ImageIdsFresh(s)
    ensures ImageIdsFresh(Apply(s, e).state)
    ensures Apply(s, e).state.nextUniqueImageId == s.nextUniqueImageId + if e.WriteImage? then 2 else 0
  {
    match e
    case WriteHeading(heading, level) =>
      if level >= 0 {
        AddTextParagraphKeepsIds(s, StyledParagraph(HeadingStyle(level).value, [TextRun(None, heading)]));
      }
    case WriteText(text) =>
      AddTextParagraphKeepsIds(s, StyledParagraph(TextStyle, [TextRun(None, text)]));
    case WriteKeyValuePairs(pairs) =>
      AddPairsKeepsIds(s, pairs);
    case WriteImage(image) =>
      WriteImageKeepsIds(s, image);
    case AddPageBreak =>
    case EndReportSummary =>
  }

  /** A whole sequence of calls from a new writer keeps the image ids fresh. */
  lemma {:induction false} ReplayKeepsImageIdsFresh(s: WriterState, events: seq<SummaryEvent>)
    requires ImageIdsFresh(s)
    ensures ImageIdsFresh(Replay(s, events).state)
    ensures Replay(s, events).state.nextUniqueImageId >= s.nextUniqueImageId
    decreases |events|
  {
    if events != [] {
      ApplyKeepsImageIdsFresh(s, events[0]);
      var o := Apply(s, events[0]);
      if o.failure.None? {
        ReplayKeepsImageIdsFresh(o.state, events[1..]);
      }
    }
  }

  lemma {:induction false} InitialImageIdsFresh(content: seq<BodyElement>)
    ensures ImageIdsFresh(Initial(content)) && Initial(content).nextUniqueImageId == 1
  {
  }

  // ---------------------------------------------------------------------
  // The writer
  // ---------------------------------------------------------------------

  /** `DocXReportSummaryWriter`, over the content of the story document's main part. */
  class SummaryWriter {
    var summaryParagraphs: seq<Paragraph>
    var pageBreakNext: bool
    var nextUniqueImageId: int
    var summaryEnded: bool
    var content: seq<BodyElement>

    function State(): WriterState
      reads this
    {
      WriterState(summaryParagraphs, pageBreakNext, nextUniqueImageId, summaryEnded, content)
    }

    constructor (content: seq<BodyElement>)
      ensures State() == Initial(content)
    {
      summaryParagraphs := [];
      pageBreakNext := false;
      nextUniqueImageId := 1;
      summaryEnded := false;
      this.content := content;
    }

    method AddParagraph(p: Paragraph) returns (failure: Option<Error>)
      modifies this
      ensures Outcome(State(), failure) == AddParagraphTo(old(State()), p)
    {
      if summaryEnded {
        return Some(Runtime);
      }
      var q := p;
      if pageBreakNext {
        var marked := SetPageBreakBefore(p);
        if marked.Err? {
          return Some(marked.error);
        }
        q := marked.value;
        pageBreakNext := false;
      }
      summaryParagraphs := summaryParagraphs + [q];
      return None;
    }

    method WriteHeading(heading: string, headingLevel: int) returns (failure: Option<Error>)
      modifies this
      ensures Outcome(State(), failure) == Apply(old(State()), SummaryEvent.WriteHeading(heading, headingLevel))
    {
      if headingLevel < 0 {
        return Some(IllegalArgument);
      }
      var style;
      if headingLevel == 0 {
        style := TitleStyle;
      } else if headingLevel == 1 {
        style := Heading1Style;
      } else {
        style := Heading2Style;
      }
      failure := AddParagraph(StyledParagraph(style, [TextRun(None, heading)]));
    }

    method WriteText(text: string) returns (failure: Option<Error>)
      modifies this
      ensures Outcome(State(), failure) == Apply(old(State()), SummaryEvent.WriteText(text))
    {
      failure := AddParagraph(StyledParagraph(TextStyle, [TextRun(None, text)]));
    }

    method WriteKeyValuePairs(pairs: seq<KeyValue>) returns (failure: Option<Error>)
      modifies this
      ensures Outcome(State(), failure) == Apply(old(State()), SummaryEvent.WriteKeyValuePairs(pairs))
    {
      var i := 0;
      while i < |pairs|
        invariant 0 <= i <= |pairs|
        invariant AddPairs(old(State()), pairs) == AddPairs(State(), pairs[i..])
        decreases |pairs| - i
      {
        assert pairs[i..][0] == pairs[i] && pairs[i..][1..] == pairs[i + 1..];
        failure := AddParagraph(KeyValueParagraph(pairs[i]));
        if failure.Some? {
          return;
        }
        i := i + 1;
      }
      assert pairs[i..] == [];
      return None;
    }

    method AddPageBreak() returns (failure: Option<Error>)
      modifies this
      ensures Outcome(State(), failure) == Apply(old(State()), SummaryEvent.AddPageBreak)
    {
      if summaryEnded {
        return Some(Runtime);
      }
      pageBreakNext := true;
      return None;
    }

    /** `nextUniqueImageId`: the current id, after which the counter moves on by one. */
    method NextUniqueImageId() returns (id: int)
      modifies this
      ensures id == old(nextUniqueImageId) && State() == old(State()).(nextUniqueImageId := id + 1)
    {
      id := nextUniqueImageId;
      nextUniqueImageId := nextUniqueImageId + 1;
    }

    method WriteImage(image: nat) returns (failure: Option<Error>)
      modifies this
      ensures Outcome(State(), failure) == Apply(old(State()), SummaryEvent.WriteImage(image))
    {
      var id1 := NextUniqueImageId();
      var id2 := NextUniqueImageId();
      failure := AddParagraph(ImageParagraph(image, id1, id2));
    }

    method EndReportSummary() returns (failure: Option<Error>)
      modifies this
      ensures Outcome(State(), failure) == Apply(old(State()), SummaryEvent.EndReportSummary)
    {
      if summaryEnded {
        return Some(Runtime);
      }
      if |content| > 0 {
        if content[0].OtherElement? {
          return Some(ClassCast);
        }
        if content[0].paragraph.properties.None? {
          return Some(NullPointer);
        }
      }
      content := Elements(summaryParagraphs) + MarkFirst(content);
      summaryEnded := true;
      return None;
    }
  }
}
