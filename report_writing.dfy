/**
 * A report's summary written through the docx summary writer: the calls a
 * report makes are always accepted, and when no component fails the
 * summary ends, in front of the story's own content.
 */
module ReportWriting {
  import opened Wrappers
  import opened Summaries
  import opened Analysis
  import opened Reports
  import opened SummaryWriting

  /** The writer takes any body call: the summary has not ended and no page break is pending. */
  predicate Ready(s: WriterState)
  {
    !s.summaryEnded && !s.pageBreakNext
  }

  /** `endReportSummary` can mark the document's first element: there is none, or it is a paragraph with properties. */
  predicate Markable(content: seq<BodyElement>)
  {
    content == [] || (content[0].ParagraphElement? && content[0].paragraph.properties.Some?)
  }

  lemma {:induction false} ApplyBody(s: WriterState, e: SummaryEvent)
    requires Ready(s) && BodyEvent(e)
    ensures Apply(s, e).failure.None? && Ready(Apply(s, e).state) && Apply(s, e).state.content == s.content
  {
    if e.WriteKeyValuePairs? {
      AddPairsSpec(s, e.pairs);
    }
  }

  /** Body calls on a ready writer all succeed and leave it ready, with the document content untouched. */
  lemma {:induction false} ReplayBody(s: WriterState, events: seq<SummaryEvent>)
    requires Ready(s)
    requires forall k :: 0 <= k < |events| ==> BodyEvent(events[k])
    ensures Replay(s, events).failure.None? && Ready(Replay(s, events).state)
    ensures Replay(s, events).state.content == s.content
    decreases |events|
  {
    if events != [] {
      ApplyBody(s, events[0]);
      ReplayBody(Apply(s, events[0]).state, events[1..]);
    }
  }

  /** Three calls at once: the first two one by one, then the rest. */
  lemma {:induction false} ReplayTwo(s: WriterState, a: SummaryEvent, b: SummaryEvent, rest: seq<SummaryEvent>)
    requires Apply(s, a).failure.None? && Apply(Apply(s, a).state, b).failure.None?
    ensures Replay(s, [a, b] + rest) == Replay(Apply(Apply(s, a).state, b).state, rest)
  {
    assert ([a, b] + rest)[0] == a && ([a, b] + rest)[1..] == [b] + rest;
    assert ([b] + rest)[0] == b && ([b] + rest)[1..] == rest;
  }

  /** A section after its page break: the break goes to the section's heading, and the writer is ready again. */
  lemma {:induction false} ReplayPagedSection(s: WriterState, section: ReportSection)
    requires Ready(s)
    ensures Replay(s, PagedSection(section).events).failure.None? && Ready(Replay(s, PagedSection(section).events).state)
    ensures Replay(s, PagedSection(section).events).state.content == s.content
  {
    var name, description := section.spec.describable.name, section.spec.describable.description;
    var results := ResultsEmission(section.analyzerResults).events;
    ResultsEmissionBody(section.analyzerResults);
    var body := [WriteText(description)] + results;
    assert forall k :: 0 <= k < |body| ==> BodyEvent(body[k]);
    assert PagedSection(section).events == [AddPageBreak, WriteHeading(name, 1)] + body;
    var t := s.(pageBreakNext := true);
    assert Apply(s, AddPageBreak) == Outcome(t, None);
    var u := Apply(t, WriteHeading(name, 1)).state;
    assert Ready(u) && u.content == s.content;
    ReplayTwo(s, AddPageBreak, WriteHeading(name, 1), body);
    ReplayBody(u, body);
  }

  /** All the sections a report writes succeed on a ready writer and leave it ready. */
  lemma {:induction false} ReplaySections(s: WriterState, sections: seq<ReportSection>)
    requires Ready(s)
    ensures Replay(s, SectionsEmission(sections).events).failure.None?
    ensures Ready(Replay(s, SectionsEmission(sections).events).state)
    ensures Replay(s, SectionsEmission(sections).events).state.content == s.content
    decreases |sections|
  {
    if sections != [] {
      var paged := PagedSection(sections[0]);
      ReplayPagedSection(s, sections[0]);
      if paged.failure.None? {
        var rest := SectionsEmission(sections[1..]).events;
        ReplayAppend(s, paged.events, rest);
        ReplaySections(Replay(s, paged.events).state, sections[1..]);
      }
    }
  }

  /**
   * The calls of a report's `writeSummary` on a new writer. No call before
   * `endReportSummary` ever throws, so when a component fails the writer is
   * left open; otherwise the summary ends exactly when the document's first
   * element can be marked, and then the buffered paragraphs stand before
   * the document's content, whose first paragraph starts a new page.
   */
  lemma {:induction false} ReportSummaryAccepted(r: Report, content: seq<BodyElement>)
    requires r.story.Story?
    ensures ReportSummary(r).failure.Some? ==>
      Replay(Initial(content), ReportSummary(r).events).failure.None? &&
      !Replay(Initial(content), ReportSummary(r).events).state.summaryEnded
    ensures ReportSummary(r).failure.None? ==>
      (Replay(Initial(content), ReportSummary(r).events).failure.None? <==> Markable(content))
    ensures ReportSummary(r).failure.None? && Markable(content) ==>
      var t := Replay(Initial(content), ReportSummary(r).events).state;
      t.summaryEnded && t.content == Elements(t.summaryParagraphs) + MarkFirst(content)
  {
    var s := Initial(content);
    var pre := ReportPreamble(r);
    var sections := SectionsEmission(r.sections);
    assert forall k :: 0 <= k < |pre| ==> BodyEvent(pre[k]);
    ReplayBody(s, pre);
    var t := Replay(s, pre).state;
    ReplaySections(t, r.sections);
    ReplayAppend(s, pre, sections.events);
    var u := Replay(s, pre + sections.events).state;
    assert !u.summaryEnded && u.content == content;
    if sections.failure.None? {
      ReplayAppend(s, pre + sections.events, [EndReportSummary]);
      assert [EndReportSummary][1..] == [];
      assert Replay(u, [EndReportSummary]) == EndSummary(u);
    }
  }
}
