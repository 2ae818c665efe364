/**
 * Analyzer summary components and the calls they make on a report summary
 * writer. A writer is observed through the calls it receives: a
 * `SummaryEvent` per call, recorded in order by a `RecordingWriter`.
 */
module Summaries {
  import opened Wrappers
  import opened TextRanges
  import opened StoryTree
  import opened Characters

  /** An `ImmutablePair<String, String>` of a key-value summary. */
  datatype KeyValue = KeyValue(key: string, value: string)

  /** One call on a `ReportSummaryWriter`. An image is an opaque value. */
  datatype SummaryEvent =
    | WriteHeading(heading: string, headingLevel: int)
    | WriteText(text: string)
    | WriteKeyValuePairs(pairs: seq<KeyValue>)
    | WriteImage(image: nat)
    | AddPageBreak
    | EndReportSummary

  /** What a sequence of writer calls did: the calls made, and the exception that stopped it, if one did. */
  datatype Emission = Emission(events: seq<SummaryEvent>, failure: Option<Error>)

  /** A summary table; a missing header list is `None` (null in the source). */
  datatype SummaryTable = SummaryTable(rowHeaders: Option<seq<string>>, columnHeaders: Option<seq<string>>, data: seq<seq<string>>)

  /** The summary components: key-value lists (frequency statistics among them), tables and heat maps. */
  datatype SummaryComponent =
    | KeyValueList(pairs: seq<KeyValue>)
    | Table(table: SummaryTable)
    | HeatMap(image: nat)

  /**
   * `AnalyzerSummaryComponent.write`: a key-value list forwards its pairs, a
   * heat map writes its chart's snapshot, and a table is not written yet.
   */
  function ComponentEvents(c: SummaryComponent): (res: Result<seq<SummaryEvent>>)
    ensures res.Err? <==> c.Table?
    ensures res.Err? ==> res.error == UnsupportedOperation
    ensures c.KeyValueList? ==> res == Ok([WriteKeyValuePairs(c.pairs)])
    ensures c.HeatMap? ==> res == Ok([WriteImage(c.image)])
  {
    match c
    case KeyValueList(pairs) => Ok([WriteKeyValuePairs(pairs)])
    case Table(_) => Err(UnsupportedOperation)
    case HeatMap(image) => Ok([WriteImage(image)])
  }

  /** Components written one after another: the calls made until the first component that throws. */
  function ComponentsEmission(cs: seq<SummaryComponent>): Emission
    decreases |cs|
  {
    if cs == [] then Emission([], None)
    else
      match ComponentEvents(cs[0])
      case Err(e) => Emission([], Some(e))
      case Ok(events) =>
        var rest := ComponentsEmission(cs[1..]);
        Emission(events + rest.events, rest.failure)
  }

  /**
   * Writing components fails exactly when one of them is a table, and when
   * none is, each component has made exactly one call, in component order.
   */
  lemma {:induction false} ComponentsEmissionSpec(cs: seq<SummaryComponent>)
    ensures ComponentsEmission(cs).failure.Some? <==> exists k :: 0 <= k < |cs| && cs[k].Table?
    ensures ComponentsEmission(cs).failure.None? ==>
      |ComponentsEmission(cs).events| == |cs| &&
      forall k :: 0 <= k < |cs| ==> ComponentEvents(cs[k]) == Ok([ComponentsEmission(cs).events[k]])
    decreases |cs|
  {
    if cs != [] {
      ComponentsEmissionSpec(cs[1..]);
      assert forall k :: 1 <= k < |cs| ==> cs[k] == cs[1..][k - 1];
      if !cs[0].Table? {
        var events := ComponentEvents(cs[0]).value;
        assert |events| == 1;
        var rest := ComponentsEmission(cs[1..]);
        assert ComponentsEmission(cs) == Emission(events + rest.events, rest.failure);
        if rest.failure.None? {
          forall k | 0 <= k < |cs|
            ensures ComponentEvents(cs[k]) == Ok([ComponentsEmission(cs).events[k]])
          {
            if k > 0 {
              assert ComponentsEmission(cs).events[k] == rest.events[k - 1];
            }
          }
        }
      }
    }
  }

  /**
   * A writer that records the calls it receives, in order. It stands for
   * any `ReportSummaryWriter`: what a caller did to a writer is the
   * sequence recorded here.
   */
  class RecordingWriter {
    var events: seq<SummaryEvent>

    constructor ()
      ensures events == []
    {
      events := [];
    }

    method Write(e: SummaryEvent)
      modifies this
      ensures events == old(events) + [e]
    {
      events := events + [e];
    }
  }

  /** `component.write(writer)`: makes the component's call, or reports the exception it throws. */
  method WriteComponent(c: SummaryComponent, writer: RecordingWriter) returns (failure: Option<Error>)
    modifies writer
    ensures ComponentEvents(c).Ok? ==> failure == None && writer.events == old(writer.events) + ComponentEvents(c).value
    ensures ComponentEvents(c).Err? ==> failure == Some(ComponentEvents(c).error) && writer.events == old(writer.events)
  {
    match c
    case KeyValueList(pairs) =>
      writer.Write(WriteKeyValuePairs(pairs));
      failure := None;
    case Table(_) =>
      failure := Some(UnsupportedOperation);
    case HeatMap(image) =>
      writer.Write(WriteImage(image));
      failure := None;
  }

  /** The `for` loop over a component list, stopping at the first exception. */
  method WriteComponents(cs: seq<SummaryComponent>, writer: RecordingWriter) returns (failure: Option<Error>)
    modifies writer
    ensures writer.events == old(writer.events) + ComponentsEmission(cs).events
    ensures failure == ComponentsEmission(cs).failure
  {
    var i := 0;
    while i < |cs|
      invariant 0 <= i <= |cs|
      invariant ComponentsEmission(cs[i..]).failure == ComponentsEmission(cs).failure
      invariant old(writer.events) + ComponentsEmission(cs).events ==
        writer.events + ComponentsEmission(cs[i..]).events
      decreases |cs| - i
    {
      assert cs[i..][1..] == cs[i + 1..];
      failure := WriteComponent(cs[i], writer);
      if failure.Some? {
        return;
      }
      i := i + 1;
    }
    return None;
  }

  // ---------------------------------------------------------------------
  // AnalyzerSummaryTable
  // ---------------------------------------------------------------------

  /** Every row of the data has the same length as the first. */
  predicate NotJagged(data: seq<seq<string>>)
  {
    forall i :: 0 <= i < |data| ==> |data[i]| == |data[0]|
  }

  /**
   * The table constructor's `validate`: the data must have at least one row,
   * all rows the same length, row headers (when given) one per row and
   * column headers (when given) one per column of the first row.
   */
  function NewSummaryTable(rowHeaders: Option<seq<string>>, columnHeaders: Option<seq<string>>, data: seq<seq<string>>)
    : (res: Result<SummaryTable>)
    ensures res.Ok? <==>
      |data| > 0 && NotJagged(data) &&
      (rowHeaders.Some? ==> |rowHeaders.value| == |data|) &&
      (columnHeaders.Some? ==> |columnHeaders.value| == |data[0]|)
    ensures res.Ok? ==> res.value == SummaryTable(rowHeaders, columnHeaders, data)
    ensures res.Err? ==> res.error == IllegalArgument
  {
    if |data| == 0 then Err(IllegalArgument)
    else if exists i :: 0 <= i < |data| && |data[i]| != |data[0]| then Err(IllegalArgument)
    else if rowHeaders.Some? && |rowHeaders.value| != |data| then Err(IllegalArgument)
    else if columnHeaders.Some? && |columnHeaders.value| != |data[0]| then Err(IllegalArgument)
    else Ok(SummaryTable(rowHeaders, columnHeaders, data))
  }

  // ---------------------------------------------------------------------
  // FrequencyStatisticsSummaryComponent
  // ---------------------------------------------------------------------

  /** How many of the matches intersect `r`, counting repeated matches each time. */
  function CountIntersecting(r: TextRange, matches: seq<TextRange>): (n: nat)
    ensures n <= |matches|
    decreases |matches|
  {
    if matches == [] then 0
    else CountIntersecting(r, matches[..|matches| - 1]) + (if Intersects(r, matches[|matches| - 1]) then 1 else 0)
  }

  /** The count is additive over a split of the matches, so a match counts toward every node it intersects. */
  lemma {:induction false} CountIntersectingAppend(r: TextRange, a: seq<TextRange>, b: seq<TextRange>)
    ensures CountIntersecting(r, a + b) == CountIntersecting(r, a) + CountIntersecting(r, b)
    decreases |b|
  {
    if b == [] {
      assert a + b == a;
    } else {
      var b' := b[..|b| - 1];
      assert (a + b)[..|a + b| - 1] == a + b';
      assert (a + b)[|a + b| - 1] == b[|b| - 1];
      CountIntersectingAppend(r, a, b');
    }
  }

  /** Every match is counted exactly when every match intersects `r`. */
  lemma {:induction false} CountIntersectingAll(r: TextRange, matches: seq<TextRange>)
    ensures CountIntersecting(r, matches) == |matches| <==> forall k :: 0 <= k < |matches| ==> Intersects(r, matches[k])
    decreases |matches|
  {
    if matches != [] {
      var front := matches[..|matches| - 1];
      CountIntersectingAll(r, front);
      assert forall k :: 0 <= k < |front| ==> front[k] == matches[k];
    }
  }

  /** `getMaxPerNodeType`'s nested loops: the largest count over the nodes, or 0 when there are none. */
  method MaxPerNode(nodes: seq<Node>, matches: seq<TextRange>) returns (maxSoFar: nat)
    ensures maxSoFar <= |matches|
    ensures forall k :: 0 <= k < |nodes| ==> CountIntersecting(RangeOf(nodes[k]), matches) <= maxSoFar
    ensures maxSoFar == 0 || exists k :: 0 <= k < |nodes| && CountIntersecting(RangeOf(nodes[k]), matches) == maxSoFar
  {
    maxSoFar := 0;
    var i := 0;
    while i < |nodes|
      invariant 0 <= i <= |nodes| && maxSoFar <= |matches|
      invariant forall k :: 0 <= k < i ==> CountIntersecting(RangeOf(nodes[k]), matches) <= maxSoFar
      invariant maxSoFar == 0 || exists k :: 0 <= k < i && CountIntersecting(RangeOf(nodes[k]), matches) == maxSoFar
    {
      var range := RangeOf(nodes[i]);
      var count := 0;
      var j := 0;
      while j < |matches|
        invariant 0 <= j <= |matches|
        invariant count == CountIntersecting(range, matches[..j])
      {
        assert matches[..j + 1][..j] == matches[..j];
        if Intersects(range, matches[j]) {
          count := count + 1;
        }
        j := j + 1;
      }
      assert matches[..j] == matches;
      if count > maxSoFar {
        maxSoFar := count;
      }
      i := i + 1;
    }
  }

  /** The keys of the five frequency statistics, in the order they are listed. */
  const FrequencyKeys: seq<string> :=
    ["Total #", "Max in single chapter", "Max in single scene", "Max in single paragraph", "Max in single sentence"]

  /** The levels the four "Max in single ..." statistics range over, in order. */
  const FrequencyLevels: seq<Level> := [ChapterLevel, SceneLevel, ParagraphLevel, SentenceLevel]

  /** The level queries the statistics make all succeed on a story whose levels are consistent. */
  lemma {:induction false} FrequencyLevelsAnswered(story: Node, k: nat)
    requires story.Story? && LevelsConsistent(story) && k < 4
    ensures ChildrenAtLevel(story, FrequencyLevels[k]).Ok?
  {
    QueryBelow(story, FrequencyLevels[k], RangeOf(story));
  }

  /** `m` is the largest number of matches intersecting one of the nodes, or 0 when no node has any. */
  predicate IsMaxCount(nodes: seq<Node>, matches: seq<TextRange>, m: nat)
  {
    (forall i :: 0 <= i < |nodes| ==> CountIntersecting(RangeOf(nodes[i]), matches) <= m) &&
    (m == 0 || exists i :: 0 <= i < |nodes| && CountIntersecting(RangeOf(nodes[i]), matches) == m)
  }

  /** The statistic for `level` has been printed as `value`: the level query succeeded and `value` shows its maximum count. */
  predicate LevelStatistic(story: Node, level: Level, matches: seq<TextRange>, value: string)
  {
    ChildrenAtLevel(story, level).Ok? &&
    exists m: nat :: m <= |matches| && value == NatToString(m) && IsMaxCount(ChildrenAtLevel(story, level).value, matches, m)
  }

  /**
   * `generateKeyValuePairs`: the number of matches, then for chapters,
   * scenes, paragraphs and sentences the largest number of matches that
   * intersect a single node of that level. A failing level query ends it.
   */
  method FrequencyStatistics(story: Node, matches: seq<TextRange>) returns (res: Result<seq<KeyValue>>)
    ensures story.Story? && LevelsConsistent(story) ==> res.Ok?
    ensures res.Err? ==> exists k :: 0 <= k < 4 && ChildrenAtLevel(story, FrequencyLevels[k]).Err?
    ensures res.Ok? ==> |res.value| == 5 && forall k :: 0 <= k < 5 ==> res.value[k].key == FrequencyKeys[k]
    ensures res.Ok? ==> res.value[0].value == NatToString(|matches|)
    ensures res.Ok? ==> forall k :: 0 <= k < 4 ==> LevelStatistic(story, FrequencyLevels[k], matches, res.value[k + 1].value)
  {
    var pairs := [KeyValue(FrequencyKeys[0], NatToString(|matches|))];
    var k := 0;
    while k < 4
      invariant 0 <= k <= 4 && |pairs| == k + 1
      invariant forall q :: 0 <= q <= k ==> pairs[q].key == FrequencyKeys[q]
      invariant pairs[0].value == NatToString(|matches|)
      invariant forall q :: 0 <= q < k ==> LevelStatistic(story, FrequencyLevels[q], matches, pairs[q + 1].value)
    {
      if story.Story? && LevelsConsistent(story) {
        FrequencyLevelsAnswered(story, k);
      }
      var nodes := ChildrenAtLevel(story, FrequencyLevels[k]);
      if nodes.Err? {
        return Err(nodes.error);
      }
      var m := MaxPerNode(nodes.value, matches);
      assert IsMaxCount(nodes.value, matches, m);
      pairs := pairs + [KeyValue(FrequencyKeys[k + 1], NatToString(m))];
      assert LevelStatistic(story, FrequencyLevels[k], matches, pairs[k + 1].value);
      k := k + 1;
    }
    return Ok(pairs);
  }
}
