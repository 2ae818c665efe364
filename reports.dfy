/**
 * Report specifications, report sections and reports, the consistency
 * checks between a report and its specification, and the order in which a
 * report writes its summary.
 */
module Reports {
  import opened Wrappers
  import opened StoryTree
  import opened Validation
  import opened Summaries
  import opened Analysis

  // ---------------------------------------------------------------------
  // ReportSectionSpec and ReportSpec
  // ---------------------------------------------------------------------

  /** A section of a report specification; the analyzer list is stored as a value copy. */
  datatype SectionSpec = SectionSpec(describable: Describable, analyzers: seq<Analyzer>)

  /** A report specification; `numAnalyzers` is derived by `NumAnalyzers`. */
  datatype ReportSpec = ReportSpec(describable: Describable, sectionSpecs: seq<SectionSpec>)

  /** `List.equals` over analyzers: the same length and element-wise `equals`, which compares extracted specs. */
  predicate SameAnalyzers(a: seq<Analyzer>, b: seq<Analyzer>)
  {
    |a| == |b| && forall i :: 0 <= i < |a| ==> a[i].Equals(b[i])
  }

  /** `ReportSectionSpec.equals`: equal name and description and equal analyzer lists. */
  predicate SectionSpecEquals(a: SectionSpec, b: SectionSpec)
  {
    a.describable == b.describable && SameAnalyzers(a.analyzers, b.analyzers)
  }

  /** `ReportSpec.equals`: equal name and description and element-wise equal section specs. */
  predicate ReportSpecEquals(a: ReportSpec, b: ReportSpec)
  {
    a.describable == b.describable && |a.sectionSpecs| == |b.sectionSpecs| &&
    forall i :: 0 <= i < |a.sectionSpecs| ==> SectionSpecEquals(a.sectionSpecs[i], b.sectionSpecs[i])
  }

  /** Section-spec equality is an equivalence: reflexive, symmetric and transitive. */
  lemma {:induction false} SectionSpecEqualsEquivalence(a: SectionSpec, b: SectionSpec, c: SectionSpec)
    ensures SectionSpecEquals(a, a)
    ensures SectionSpecEquals(a, b) ==> SectionSpecEquals(b, a)
    ensures SectionSpecEquals(a, b) && SectionSpecEquals(b, c) ==> SectionSpecEquals(a, c)
  {
  }

  /** `numAnalyzers`: the number of analyzers over all sections. */
  function NumAnalyzers(sectionSpecs: seq<SectionSpec>): nat
    decreases |sectionSpecs|
  {
    if sectionSpecs == [] then 0 else |sectionSpecs[0].analyzers| + NumAnalyzers(sectionSpecs[1..])
  }

  /** The analyzer count of joined section lists is the sum of their counts. */
  lemma {:induction false} NumAnalyzersAppend(a: seq<SectionSpec>, b: seq<SectionSpec>)
    ensures NumAnalyzers(a + b) == NumAnalyzers(a) + NumAnalyzers(b)
    decreases |a|
  {
    if a == [] {
      assert a + b == b;
    } else {
      assert (a + b)[1..] == a[1..] + b;
      NumAnalyzersAppend(a[1..], b);
    }
  }

  /** Element-wise equal section lists count the same number of analyzers. */
  lemma {:induction false} NumAnalyzersOfEqualSections(a: seq<SectionSpec>, b: seq<SectionSpec>)
    requires |a| == |b| && forall i :: 0 <= i < |a| ==> SectionSpecEquals(a[i], b[i])
    ensures NumAnalyzers(a) == NumAnalyzers(b)
    decreases |a|
  {
    if a != [] {
      assert SectionSpecEquals(a[0], b[0]);
      assert forall i :: 0 <= i < |a| - 1 ==> a[1..][i] == a[i + 1] && b[1..][i] == b[i + 1];
      NumAnalyzersOfEqualSections(a[1..], b[1..]);
    }
  }

  /** Equal report specs count the same number of analyzers. */
  lemma {:induction false} NumAnalyzersOfEqualSpecs(a: ReportSpec, b: ReportSpec)
    requires ReportSpecEquals(a, b)
    ensures NumAnalyzers(a.sectionSpecs) == NumAnalyzers(b.sectionSpecs)
  {
    NumAnalyzersOfEqualSections(a.sectionSpecs, b.sectionSpecs);
  }

  /** Report-spec equality is an equivalence: reflexive, symmetric and transitive. */
  lemma {:induction false} ReportSpecEqualsEquivalence(a: ReportSpec, b: ReportSpec, c: ReportSpec)
    ensures ReportSpecEquals(a, a)
    ensures ReportSpecEquals(a, b) ==> ReportSpecEquals(b, a)
    ensures ReportSpecEquals(a, b) && ReportSpecEquals(b, c) ==> ReportSpecEquals(a, c)
  {
    forall i | 0 <= i < |a.sectionSpecs| {
      SectionSpecEqualsEquivalence(a.sectionSpecs[i], a.sectionSpecs[i], a.sectionSpecs[i]);
    }
    if ReportSpecEquals(a, b) {
      forall i | 0 <= i < |a.sectionSpecs| ensures SectionSpecEquals(b.sectionSpecs[i], a.sectionSpecs[i]) {
        SectionSpecEqualsEquivalence(a.sectionSpecs[i], b.sectionSpecs[i], a.sectionSpecs[i]);
      }
      if ReportSpecEquals(b, c) {
        forall i | 0 <= i < |a.sectionSpecs| ensures SectionSpecEquals(a.sectionSpecs[i], c.sectionSpecs[i]) {
          SectionSpecEqualsEquivalence(a.sectionSpecs[i], b.sectionSpecs[i], c.sectionSpecs[i]);
        }
      }
    }
  }

  // ---------------------------------------------------------------------
  // ReportSection
  // ---------------------------------------------------------------------

  /** The results of one section: one analyzer result per analyzer of the section spec. */
  datatype ReportSection = ReportSection(spec: SectionSpec, analyzerResults: seq<AnalyzerResult>)

  /** `validateAnalyzerResults`: one result per spec analyzer, result i produced by an analyzer equal to analyzer i. */
  predicate ResultsMatchSpec(spec: SectionSpec, results: seq<AnalyzerResult>)
  {
    |spec.analyzers| == |results| && forall i :: 0 <= i < |results| ==> results[i].analyzer.Equals(spec.analyzers[i])
  }

  /** The section constructor: the results must match the spec. */
  method NewReportSection(spec: SectionSpec, analyzerResults: seq<AnalyzerResult>) returns (res: Result<ReportSection>)
    ensures res.Ok? <==> ResultsMatchSpec(spec, analyzerResults)
    ensures res.Ok? ==> res.value == ReportSection(spec, analyzerResults)
    ensures res.Err? ==> res.error == IllegalArgument
  {
    if |spec.analyzers| != |analyzerResults| {
      return Err(IllegalArgument);
    }
    var i := 0;
    while i < |analyzerResults|
      invariant 0 <= i <= |analyzerResults|
      invariant forall k :: 0 <= k < i ==> analyzerResults[k].analyzer.Equals(spec.analyzers[k])
    {
      if !analyzerResults[i].analyzer.Equals(spec.analyzers[i]) {
        return Err(IllegalArgument);
      }
      i := i + 1;
    }
    return Ok(ReportSection(spec, analyzerResults));
  }

  /** The analyzer results' summaries one after another, until one throws. */
  function ResultsEmission(results: seq<AnalyzerResult>): Emission
    decreases |results|
  {
    if results == [] then Emission([], None)
    else
      var first := AnalyzerSummary(results[0]);
      if first.failure.Some? then first
      else Prefixed(first.events, ResultsEmission(results[1..]))
  }

  /** The calls a section's `writeSummary` makes: its name as a level-1 heading, its description, then each result's summary. */
  function SectionSummary(s: ReportSection): Emission
  {
    Prefixed([WriteHeading(s.spec.describable.name, 1), WriteText(s.spec.describable.description)],
             ResultsEmission(s.analyzerResults))
  }

  /** A section's `writeSummary`. */
  method WriteSectionSummary(s: ReportSection, writer: RecordingWriter) returns (failure: Option<Error>)
    modifies writer
    ensures writer.events == old(writer.events) + SectionSummary(s).events
    ensures failure == SectionSummary(s).failure
  {
    writer.Write(WriteHeading(s.spec.describable.name, 1));
    writer.Write(WriteText(s.spec.describable.description));
    failure := WriteResults(s.analyzerResults, writer);
  }

  /** `ResultsEmission` from result i on: result i's summary, then, unless it failed, the results after it. */
  lemma {:induction false} ResultsEmissionStep(results: seq<AnalyzerResult>, i: nat)
    requires i < |results|
    ensures AnalyzerSummary(results[i]).failure.Some? ==> ResultsEmission(results[i..]) == AnalyzerSummary(results[i])
    ensures AnalyzerSummary(results[i]).failure.None? ==>
      ResultsEmission(results[i..]) == Prefixed(AnalyzerSummary(results[i]).events, ResultsEmission(results[i + 1..]))
  {
    assert results[i..][0] == results[i] && results[i..][1..] == results[i + 1..];
  }

  /** After a result that did not fail, what remains to write is the emission of the results after it. */
  lemma {:induction false} ResultsAdvance(results: seq<AnalyzerResult>, i: nat, written: seq<SummaryEvent>, total: seq<SummaryEvent>)
    requires i < |results| && AnalyzerSummary(results[i]).failure.None?
    requires total == written + ResultsEmission(results[i..]).events
    ensures total == (written + AnalyzerSummary(results[i]).events) + ResultsEmission(results[i + 1..]).events
    ensures ResultsEmission(results[i..]).failure == ResultsEmission(results[i + 1..]).failure
  {
    ResultsEmissionStep(results, i);
    var p, r := AnalyzerSummary(results[i]).events, ResultsEmission(results[i + 1..]).events;
    assert written + (p + r) == (written + p) + r;
  }

  /** The loop of a section's `writeSummary`: each result's summary until one throws. */
  method WriteResults(results: seq<AnalyzerResult>, writer: RecordingWriter) returns (failure: Option<Error>)
    modifies writer
    ensures writer.events == old(writer.events) + ResultsEmission(results).events
    ensures failure == ResultsEmission(results).failure
  {
    ghost var all := ResultsEmission(results);
    var i := 0;
    while i < |results|
      invariant 0 <= i <= |results|
      invariant ResultsEmission(results[i..]).failure == all.failure
      invariant old(writer.events) + all.events == writer.events + ResultsEmission(results[i..]).events
      decreases |results| - i
    {
      ResultsEmissionStep(results, i);
      ghost var before := writer.events;
      failure := WriteAnalyzerSummary(results[i], writer);
      if failure.Some? {
        return;
      }
      ResultsAdvance(results, i, before, old(writer.events) + all.events);
      i := i + 1;
    }
    assert results[i..] == [];
    return None;
  }

  // ---------------------------------------------------------------------
  // Report
  // ---------------------------------------------------------------------

  /** A report of a story: one section per section spec. */
  datatype Report = Report(story: Node, spec: ReportSpec, sections: seq<ReportSection>)

  /** `validateReportTabs`: one section per spec section, section i's spec equal to spec section i. */
  predicate SectionsMatchSpec(spec: ReportSpec, sections: seq<ReportSection>)
  {
    |spec.sectionSpecs| == |sections| && forall i :: 0 <= i < |sections| ==> SectionSpecEquals(sections[i].spec, spec.sectionSpecs[i])
  }

  /** The report constructor: the story is a story and the sections must match the spec. */
  method NewReport(story: Node, spec: ReportSpec, sections: seq<ReportSection>) returns (res: Result<Report>)
    requires story.Story?
    ensures res.Ok? <==> SectionsMatchSpec(spec, sections)
    ensures res.Ok? ==> res.value == Report(story, spec, sections)
    ensures res.Err? ==> res.error == IllegalArgument
  {
    if |spec.sectionSpecs| != |sections| {
      return Err(IllegalArgument);
    }
    var i := 0;
    while i < |sections|
      invariant 0 <= i <= |sections|
      invariant forall k :: 0 <= k < i ==> SectionSpecEquals(sections[k].spec, spec.sectionSpecs[k])
    {
      if !SectionSpecEquals(sections[i].spec, spec.sectionSpecs[i]) {
        return Err(IllegalArgument);
      }
      i := i + 1;
    }
    return Ok(Report(story, spec, sections));
  }

  /** A section's summary after the page break that precedes it. */
  function PagedSection(s: ReportSection): Emission
  {
    Prefixed([AddPageBreak], SectionSummary(s))
  }

  /** The sections' summaries, each after a page break, until one throws. */
  function SectionsEmission(sections: seq<ReportSection>): Emission
    decreases |sections|
  {
    if sections == [] then Emission([], None)
    else
      var first := PagedSection(sections[0]);
      if first.failure.Some? then first
      else Prefixed(first.events, SectionsEmission(sections[1..]))
  }

  /** The title and name headings and the description of a report's summary. */
  function ReportPreamble(r: Report): seq<SummaryEvent>
    requires r.story.Story?
  {
    [WriteHeading("\"" + r.story.title + "\"", 0), WriteHeading(r.spec.describable.name + " Results", 0),
     WriteText(r.spec.describable.description)]
  }

  /**
   * The calls a report's `writeSummary` makes: the quoted story title and
   * the report name as level-0 headings, the description, each section
   * after a page break, and finally `endReportSummary`.
   */
  function ReportSummary(r: Report): Emission
    requires r.story.Story?
  {
    var sections := SectionsEmission(r.sections);
    if sections.failure.Some? then Prefixed(ReportPreamble(r), sections)
    else Emission(ReportPreamble(r) + sections.events + [EndReportSummary], None)
  }

  /**
   * The calls of analyzer results, sections and components never end the
   * summary, make no page break themselves, and ask for no negative heading
   * level.
   */
  predicate BodyEvent(e: SummaryEvent)
  {
    !e.EndReportSummary? && !e.AddPageBreak? && (e.WriteHeading? ==> e.headingLevel >= 0)
  }

  lemma {:induction false} ComponentsEmissionBody(cs: seq<SummaryComponent>)
    ensures forall k :: 0 <= k < |ComponentsEmission(cs).events| ==> BodyEvent(ComponentsEmission(cs).events[k])
    decreases |cs|
  {
    if cs != [] && ComponentEvents(cs[0]).Ok? {
      ComponentsEmissionBody(cs[1..]);
    }
  }

  lemma {:induction false} ResultsEmissionBody(results: seq<AnalyzerResult>)
    ensures forall k :: 0 <= k < |ResultsEmission(results).events| ==> BodyEvent(ResultsEmission(results).events[k])
    decreases |results|
  {
    if results != [] {
      ComponentsEmissionBody(results[0].summaryComponents);
      ResultsEmissionBody(results[1..]);
    }
  }

  /** How many page breaks are among the calls. */
  function PageBreaks(events: seq<SummaryEvent>): nat
    decreases |events|
  {
    if events == [] then 0 else (if events[0].AddPageBreak? then 1 else 0) + PageBreaks(events[1..])
  }

  lemma {:induction false} PageBreaksAppend(a: seq<SummaryEvent>, b: seq<SummaryEvent>)
    ensures PageBreaks(a + b) == PageBreaks(a) + PageBreaks(b)
    decreases |a|
  {
    if a == [] {
      assert a + b == b;
    } else {
      assert (a + b)[1..] == a[1..] + b;
      PageBreaksAppend(a[1..], b);
    }
  }

  lemma {:induction false} PageBreaksNone(events: seq<SummaryEvent>)
    requires forall k :: 0 <= k < |events| ==> BodyEvent(events[k])
    ensures PageBreaks(events) == 0
    decreases |events|
  {
    if events != [] {
      PageBreaksNone(events[1..]);
    }
  }

  /**
   * Written without failure, the sections make exactly one page break per
   * section and never end the summary; written with a failure, the calls
   * stop inside some section.
   */
  lemma {:induction false} SectionsEmissionSpec(sections: seq<ReportSection>)
    ensures SectionsEmission(sections).failure.None? ==> PageBreaks(SectionsEmission(sections).events) == |sections|
    ensures forall k :: 0 <= k < |SectionsEmission(sections).events| ==> !SectionsEmission(sections).events[k].EndReportSummary?
    ensures SectionsEmission(sections).failure.Some? <==>
      exists i :: 0 <= i < |sections| && SectionSummary(sections[i]).failure.Some?
    decreases |sections|
  {
    if sections != [] {
      var s := sections[0];
      ResultsEmissionBody(s.analyzerResults);
      var body := SectionSummary(s).events;
      assert forall k :: 0 <= k < |body| ==> BodyEvent(body[k]);
      PageBreaksNone(body);
      PageBreaksAppend([AddPageBreak], body);
      SectionsEmissionSpec(sections[1..]);
      assert forall i :: 1 <= i < |sections| ==> sections[i] == sections[1..][i - 1];
      if SectionSummary(s).failure.None? {
        PageBreaksAppend([AddPageBreak] + body, SectionsEmission(sections[1..]).events);
      }
    }
  }

  /**
   * The summary a report writes: it opens with the two level-0 headings and
   * the description, and, when no section fails, it holds one page break per
   * section and ends with its only `endReportSummary`; when a section fails
   * the summary is never ended.
   */
  lemma {:induction false} ReportSummarySpec(r: Report)
    requires r.story.Story?
    ensures |ReportSummary(r).events| >= 3 && ReportSummary(r).events[..3] == ReportPreamble(r)
    ensures ReportSummary(r).failure.None? <==> forall i :: 0 <= i < |r.sections| ==> SectionSummary(r.sections[i]).failure.None?
    ensures ReportSummary(r).failure.None? ==>
      ReportSummary(r).events[|ReportSummary(r).events| - 1] == EndReportSummary &&
      (forall k :: 0 <= k < |ReportSummary(r).events| - 1 ==> !ReportSummary(r).events[k].EndReportSummary?) &&
      PageBreaks(ReportSummary(r).events) == |r.sections|
    ensures ReportSummary(r).failure.Some? ==> forall k :: 0 <= k < |ReportSummary(r).events| ==> !ReportSummary(r).events[k].EndReportSummary?
  {
    SectionsEmissionSpec(r.sections);
    var pre := ReportPreamble(r);
    var body := SectionsEmission(r.sections).events;
    PreambleEvents(r, pre);
    if SectionsEmission(r.sections).failure.None? {
      EndedEvents(pre, body);
    } else {
      UnendedEvents(pre, body);
    }
  }

  /** The preamble: three calls, none of them a page break, the end of the summary or a negative heading level. */
  lemma PreambleEvents(r: Report, pre: seq<SummaryEvent>)
    requires r.story.Story? && pre == ReportPreamble(r)
    ensures |pre| == 3 && forall k :: 0 <= k < |pre| ==> BodyEvent(pre[k])
  {
  }

  /** The preamble, the sections' calls and the final `endReportSummary`. */
  lemma {:induction false} EndedEvents(pre: seq<SummaryEvent>, body: seq<SummaryEvent>)
    requires |pre| == 3 && forall k :: 0 <= k < |pre| ==> BodyEvent(pre[k])
    requires forall k :: 0 <= k < |body| ==> !body[k].EndReportSummary?
    ensures var events := pre + body + [EndReportSummary];
      events[..3] == pre && events[|events| - 1] == EndReportSummary &&
      (forall k :: 0 <= k < |events| - 1 ==> !events[k].EndReportSummary?) &&
      PageBreaks(events) == PageBreaks(body)
  {
    var events := pre + body + [EndReportSummary];
    assert events[..3] == pre;
    assert forall k :: 0 <= k < |events| - 1 ==> events[k] == (pre + body)[k];
    assert forall k :: 0 <= k < |pre + body| ==> (k < 3 ==> (pre + body)[k] == pre[k]) && (k >= 3 ==> (pre + body)[k] == body[k - 3]);
    PageBreaksNone(pre);
    PageBreaksAppend(pre, body);
    PageBreaksAppend(pre + body, [EndReportSummary]);
    assert PageBreaks([EndReportSummary]) == 0;
  }

  /** The preamble and the calls of sections that stopped on a failure. */
  lemma {:induction false} UnendedEvents(pre: seq<SummaryEvent>, body: seq<SummaryEvent>)
    requires |pre| == 3 && forall k :: 0 <= k < |pre| ==> BodyEvent(pre[k])
    requires forall k :: 0 <= k < |body| ==> !body[k].EndReportSummary?
    ensures (pre + body)[..3] == pre && forall k :: 0 <= k < |pre + body| ==> !(pre + body)[k].EndReportSummary?
  {
    assert (pre + body)[..3] == pre;
    assert forall k :: 0 <= k < |pre + body| ==> (k < 3 ==> (pre + body)[k] == pre[k]) && (k >= 3 ==> (pre + body)[k] == body[k - 3]);
  }

  /** `SectionsEmission` from section i on: section i after its page break, then, unless it failed, the sections after it. */
  lemma {:induction false} SectionsEmissionStep(sections: seq<ReportSection>, i: nat)
    requires i < |sections|
    ensures PagedSection(sections[i]).failure.Some? ==> SectionsEmission(sections[i..]) == PagedSection(sections[i])
    ensures PagedSection(sections[i]).failure.None? ==>
      SectionsEmission(sections[i..]) == Prefixed(PagedSection(sections[i]).events, SectionsEmission(sections[i + 1..]))
  {
    assert sections[i..][0] == sections[i] && sections[i..][1..] == sections[i + 1..];
  }

  /** The page break and the section's summary of one iteration of a report's `writeSummary`. */
  method WritePagedSection(s: ReportSection, writer: RecordingWriter) returns (failure: Option<Error>)
    modifies writer
    ensures writer.events == old(writer.events) + PagedSection(s).events
    ensures failure == PagedSection(s).failure
  {
    writer.Write(AddPageBreak);
    failure := WriteSectionSummary(s, writer);
  }

  /** The loop of a report's `writeSummary`: a page break, then the section, for each section until one throws. */
  method WriteSections(sections: seq<ReportSection>, writer: RecordingWriter) returns (failure: Option<Error>)
    modifies writer
    ensures writer.events == old(writer.events) + SectionsEmission(sections).events
    ensures failure == SectionsEmission(sections).failure
  {
    ghost var all := SectionsEmission(sections);
    var i := 0;
    while i < |sections|
      invariant 0 <= i <= |sections|
      invariant SectionsEmission(sections[i..]).failure == all.failure
      invariant old(writer.events) + all.events == writer.events + SectionsEmission(sections[i..]).events
      decreases |sections| - i
    {
      SectionsEmissionStep(sections, i);
      ghost var before := writer.events;
      failure := WritePagedSection(sections[i], writer);
      if failure.Some? {
        return;
      }
      SectionsAdvance(sections, i, before, old(writer.events) + all.events);
      i := i + 1;
    }
    assert sections[i..] == [];
    return None;
  }

  /** After a section that did not fail, what remains to write is the emission of the sections after it. */
  lemma {:induction false} SectionsAdvance(sections: seq<ReportSection>, i: nat, written: seq<SummaryEvent>, total: seq<SummaryEvent>)
    requires i < |sections| && PagedSection(sections[i]).failure.None?
    requires total == written + SectionsEmission(sections[i..]).events
    ensures total == (written + PagedSection(sections[i]).events) + SectionsEmission(sections[i + 1..]).events
    ensures SectionsEmission(sections[i..]).failure == SectionsEmission(sections[i + 1..]).failure
  {
    SectionsEmissionStep(sections, i);
    var p, r := PagedSection(sections[i]).events, SectionsEmission(sections[i + 1..]).events;
    assert written + (p + r) == (written + p) + r;
  }

  /** A report's `writeSummary`. */
  method WriteReportSummary(r: Report, writer: RecordingWriter) returns (failure: Option<Error>)
    requires r.story.Story?
    modifies writer
    ensures writer.events == old(writer.events) + ReportSummary(r).events
    ensures failure == ReportSummary(r).failure
  {
    WritePreamble(r, writer);
    failure := WriteSections(r.sections, writer);
    ghost var sections := SectionsEmission(r.sections);
    ReportSummaryParts(r, sections);
    Associative(old(writer.events), ReportPreamble(r), sections.events);
    if failure.Some? {
      return;
    }
    writer.Write(EndReportSummary);
    Associative(old(writer.events), ReportPreamble(r) + sections.events, [EndReportSummary]);
  }

  /** The opening calls of a report's `writeSummary`: the quoted title and the report name as level-0 headings, and the description. */
  method WritePreamble(r: Report, writer: RecordingWriter)
    requires r.story.Story?
    modifies writer
    ensures writer.events == old(writer.events) + ReportPreamble(r)
  {
    writer.Write(WriteHeading("\"" + r.story.title + "\"", 0));
    writer.Write(WriteHeading(r.spec.describable.name + " Results", 0));
    writer.Write(WriteText(r.spec.describable.description));
  }

  /** A report's summary given the sections' emission: the preamble, the sections' calls, and the end call unless a section failed. */
  lemma ReportSummaryParts(r: Report, sections: Emission)
    requires r.story.Story? && sections == SectionsEmission(r.sections)
    ensures sections.failure.Some? ==> ReportSummary(r) == Emission(ReportPreamble(r) + sections.events, sections.failure)
    ensures sections.failure.None? ==> ReportSummary(r) == Emission(ReportPreamble(r) + sections.events + [EndReportSummary], None)
  {
  }
}
