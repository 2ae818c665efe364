/**
 * Analyzer types, analyzer specifications, analyzers, the result of trying
 * to create an analyzer, comments and analyzer results (the analysis
 * package). Analyzer types, analyzers and parameter specs are compared by
 * identity in the source, so they are classes whose fields never change.
 */
module Analysis {
  import opened Wrappers
  import opened Characters
  import opened TextRanges
  import opened Validation
  import opened Summaries

  // ---------------------------------------------------------------------
  // BaseAnalyzerType
  // ---------------------------------------------------------------------

  /** No two of the specs share an id. */
  predicate DistinctIds(specs: seq<ParameterSpec>)
  {
    forall i, j :: 0 <= i < j < |specs| ==> specs[i].id != specs[j].id
  }

  /** An analyzer type; the constructor's checks are the requires of the Dafny constructor. */
  class AnalyzerType {
    const describable: Describable
    const id: string
    const version: int
    const producesComments: bool
    const parameterSpecs: seq<ParameterSpec>

    constructor (describable: Describable, id: string, version: int, producesComments: bool, parameterSpecs: seq<ParameterSpec>)
      requires !IsBlank(id) && version >= 1 && DistinctIds(parameterSpecs)
      ensures this.describable == describable && this.id == id && this.version == version
      ensures this.producesComments == producesComments && this.parameterSpecs == parameterSpecs
    {
      this.describable := describable;
      this.id := id;
      this.version := version;
      this.producesComments := producesComments;
      this.parameterSpecs := parameterSpecs;
    }

    /** The declared parameter specs, as the key set a creation result must have. */
    function SpecSet(): set<ParameterSpec>
    {
      set s | s in parameterSpecs
    }

    /** The ids of the declared parameter specs. */
    function SpecIds(): set<string>
    {
      set s | s in parameterSpecs :: s.id
    }

    /**
     * `validateSpec`: the error list gets a message when the spec names
     * another analyzer type, then one when it holds parameters this type
     * does not declare. How the set of unknown parameters prints is
     * `showSet`.
     */
    method ValidateSpec(spec: AnalyzerSpec, showSet: SetText) returns (r: ValidationResult)
      ensures r.valid <==> spec.analyzerType == this && spec.parameterValues.Keys <= SpecIds()
      ensures r.errors ==
        (if spec.analyzerType != this then [WrongTypeMessage(spec.analyzerType.id, id)] else []) +
        (if spec.parameterValues.Keys <= SpecIds() then [] else [UnknownParametersMessage(showSet(spec.parameterValues.Keys - SpecIds()))])
    {
      var validationErrors: seq<string> := [];
      if spec.analyzerType != this {
        validationErrors := validationErrors + [WrongTypeMessage(spec.analyzerType.id, id)];
      }
      var parameterSpecIds := SpecIds();
      var additionalParameters := spec.parameterValues.Keys - parameterSpecIds;
      assert additionalParameters == {} <==> spec.parameterValues.Keys <= SpecIds() by {
        if additionalParameters == {} {
          forall k | k in spec.parameterValues.Keys ensures k in SpecIds() {
            assert k !in additionalParameters;
          }
        }
      }
      if additionalParameters != {} {
        validationErrors := validationErrors + [UnknownParametersMessage(showSet(additionalParameters))];
      }
      if validationErrors != [] {
        r := InvalidResult(validationErrors).value;
      } else {
        r := ValidResult;
      }
    }

    /** The parameter results of `tryCreateAnalyzer`: one per declared spec, on the value stored under its id. */
    function ParameterResults(spec: AnalyzerSpec, showSet: SetText): (m: map<ParameterSpec, ValidationResult>)
      ensures m.Keys == SpecSet()
      ensures forall s :: s in m ==> m[s] == ValidateParameter(s, ValueAt(spec, s.id), showSet)
    {
      map s | s in SpecSet() :: ValidateParameter(s, ValueAt(spec, s.id), showSet)
    }

    /**
     * `tryCreateAnalyzer`, with the failure result built for this type: an
     * analyzer is created exactly when the global result and every parameter
     * result are valid, and the result carries those results either way.
     */
    method TryCreateAnalyzer(spec: AnalyzerSpec, showSet: SetText) returns (r: CreationResult)
      ensures r.parameterResults == ParameterResults(spec, showSet)
      ensures r.globalResult.valid <==> spec.analyzerType == this && spec.parameterValues.Keys <= SpecIds()
      ensures r.analyzer.Some? <==> AllValid(r.globalResult, r.parameterResults)
      ensures r.analyzer.Some? ==> fresh(r.analyzer.value) && r.analyzer.value.ExtractAnalyzerSpec() == spec
      ensures NewCreationResult(this, r.analyzer, r.globalResult, r.parameterResults) == Ok(r)
    {
      var globalResult := ValidateSpec(spec, showSet);
      var parameterResults := ParameterResults(spec, showSet);
      if AllValid(globalResult, parameterResults) {
        var analyzer := CreateAnalyzer(spec);
        r := CreationResult(globalResult, parameterResults, Some(analyzer));
      } else {
        r := CreationResult(globalResult, parameterResults, None);
      }
    }

    /**
     * `tryCreateAnalyzer` as the source writes it: the failure result is
     * built for the spec's analyzer type. When that type declares other
     * parameter specs than this one, the creation result's key check throws.
     */
    method TryCreateAnalyzerAsWritten(spec: AnalyzerSpec, showSet: SetText) returns (res: Result<CreationResult>)
      ensures spec.analyzerType == this && spec.parameterValues.Keys <= SpecIds() && AllParametersValid(ParameterResults(spec, showSet))
        ==> res.Ok? && res.value.analyzer.Some?
      ensures spec.analyzerType.SpecSet() != SpecSet() ==> res == Err(IllegalArgument)
      ensures spec.analyzerType.SpecSet() == SpecSet() ==> res.Ok? && res.value.parameterResults == ParameterResults(spec, showSet)
    {
      var globalResult := ValidateSpec(spec, showSet);
      var parameterResults := ParameterResults(spec, showSet);
      if AllValid(globalResult, parameterResults) {
        var analyzer := CreateAnalyzer(spec);
        res := Ok(CreationResult(globalResult, parameterResults, Some(analyzer)));
      } else {
        res := NewCreationResult(spec.analyzerType, None, globalResult, parameterResults);
      }
    }

    /**
     * `createAnalyzer`, for an analyzer that keeps the spec's parameter
     * values (a `BaseAnalyzer` whose `retrieveParameterValues` returns them).
     */
    method CreateAnalyzer(spec: AnalyzerSpec) returns (a: Analyzer)
      ensures fresh(a) && a.ExtractAnalyzerSpec() == spec
    {
      a := new Analyzer(spec.describable, spec.analyzerType, spec.commentRecordingSuppressed, spec.parameterValues);
    }
  }

  /** The message for a spec of another analyzer type. */
  function WrongTypeMessage(specTypeId: string, typeId: string): string
  {
    "Provided spec is for analyzer type " + specTypeId + " not " + typeId
  }

  /** The message for parameters the analyzer type does not declare. */
  function UnknownParametersMessage(shownSet: string): string
  {
    "Analyzer spec contains unknown parameters: " + shownSet
  }

  /**
   * `NewAnalyzerType`: the `BaseAnalyzerType` constructor's checks: a
   * non-blank id, a version of at least 1, and parameter specs with distinct
   * ids.
   */
  method NewAnalyzerType(name: string, description: string, id: string, version: int, producesComments: bool,
                         parameterSpecs: seq<ParameterSpec>)
    returns (res: Result<AnalyzerType>)
    ensures res.Ok? <==> !IsBlank(id) && version >= 1 && DistinctIds(parameterSpecs)
    ensures res.Err? ==> res.error == IllegalArgument
    ensures res.Ok? ==> fresh(res.value) && res.value.describable == Describable(name, description) && res.value.id == id
    ensures res.Ok? ==> res.value.version == version && res.value.producesComments == producesComments
    ensures res.Ok? ==> res.value.parameterSpecs == parameterSpecs
  {
    if IsBlank(id) || version < 1 || !DistinctIds(parameterSpecs) {
      return Err(IllegalArgument);
    }
    var t := new AnalyzerType(Describable(name, description), id, version, producesComments, parameterSpecs);
    return Ok(t);
  }

  // ---------------------------------------------------------------------
  // AnalyzerSpec
  // ---------------------------------------------------------------------

  /**
   * An analyzer specification. Its datatype equality is `equals`: equal
   * name and description, the same analyzer type object, equal parameter
   * maps (a key mapped to `Null` differs from a missing key, as for
   * `HashMap.equals`) and the same suppression flag. The map is a value, so
   * the defensive copy is implicit.
   */
  datatype AnalyzerSpec = AnalyzerSpec(
    describable: Describable,
    analyzerType: AnalyzerType,
    commentRecordingSuppressed: bool,
    parameterValues: map<string, Value>)

  /** `Map.get`: the value stored under `id`, or null when there is none. */
  function ValueAt(spec: AnalyzerSpec, id: string): Value
  {
    if id in spec.parameterValues then spec.parameterValues[id] else Null
  }

  /**
   * `getParameterValue`: the value stored under the parameter's id, cast to
   * the parameter's type; a null (or missing) value casts to null, and a
   * value of another type fails the cast.
   */
  function GetParameterValue(spec: AnalyzerSpec, p: ParameterSpec): (res: Result<Value>)
    ensures res.Ok? <==> ValueAt(spec, p.id) == Null || IsInstance(p.parameterType, ValueAt(spec, p.id))
    ensures res.Ok? ==> res.value == ValueAt(spec, p.id) && (p.id !in spec.parameterValues ==> res.value == Null)
    ensures res.Err? ==> res.error == ClassCast
  {
    var v := ValueAt(spec, p.id);
    if v == Null || IsInstance(p.parameterType, v) then Ok(v) else Err(ClassCast)
  }

  /**
   * `validateParameter`: a value that is not an instance of the parameter's
   * type (null included) is invalid with a fixed message; otherwise the
   * parameter's validator decides.
   */
  function ValidateParameter(p: ParameterSpec, value: Value, showSet: SetText): (r: ValidationResult)
    ensures !IsInstance(p.parameterType, value) ==>
      r == Invalid("Value " + ValueText(value, showSet) + " does not match expected type for parameter: " + p.describable.name)
    ensures IsInstance(p.parameterType, value) ==> r == p.parameterValidator(value)
  {
    if !IsInstance(p.parameterType, value) then
      Invalid("Value " + ValueText(value, showSet) + " does not match expected type for parameter: " + p.describable.name)
    else p.parameterValidator(value)
  }

  /** A missing parameter is invalid even when its spec has a default value: the default is not consulted. */
  lemma {:induction false} MissingParameterInvalid(t: AnalyzerType, spec: AnalyzerSpec, showSet: SetText, p: ParameterSpec)
    requires p in t.SpecSet() && p.id !in spec.parameterValues
    ensures !t.ParameterResults(spec, showSet)[p].valid
  {
    assert ValueAt(spec, p.id) == Null;
  }

  // ---------------------------------------------------------------------
  // BaseAnalyzer
  // ---------------------------------------------------------------------

  /**
   * An analyzer built from a spec; `parameterValues` is what its
   * `retrieveParameterValues` returns.
   */
  class Analyzer {
    const describable: Describable
    const analyzerType: AnalyzerType
    const commentRecordingSuppressed: bool
    const parameterValues: map<string, Value>

    constructor (describable: Describable, analyzerType: AnalyzerType, commentRecordingSuppressed: bool,
                 parameterValues: map<string, Value>)
      ensures this.describable == describable && this.analyzerType == analyzerType
      ensures this.commentRecordingSuppressed == commentRecordingSuppressed && this.parameterValues == parameterValues
    {
      this.describable := describable;
      this.analyzerType := analyzerType;
      this.commentRecordingSuppressed := commentRecordingSuppressed;
      this.parameterValues := parameterValues;
    }

    /** `extractAnalyzerSpec`: the spec this analyzer was built from. */
    function ExtractAnalyzerSpec(): AnalyzerSpec
    {
      AnalyzerSpec(describable, analyzerType, commentRecordingSuppressed, parameterValues)
    }

    /** `equals`: two analyzers are equal when their extracted specs are. */
    predicate Equals(other: Analyzer)
    {
      ExtractAnalyzerSpec() == other.ExtractAnalyzerSpec()
    }
  }

  /** Analyzer equality is the equality of every stored part, not the identity of the objects. */
  lemma {:induction false} AnalyzerEqualsIff(a: Analyzer, b: Analyzer)
    ensures a.Equals(b) <==>
      a.describable == b.describable && a.analyzerType == b.analyzerType &&
      a.commentRecordingSuppressed == b.commentRecordingSuppressed && a.parameterValues == b.parameterValues
  {
    if a.Equals(b) {
      assert a.ExtractAnalyzerSpec().describable == b.ExtractAnalyzerSpec().describable;
    }
  }

  // ---------------------------------------------------------------------
  // AnalyzerCreationResult
  // ---------------------------------------------------------------------

  /** The result of an attempt to create an analyzer; `None` is a null analyzer. */
  datatype CreationResult = CreationResult(
    globalResult: ValidationResult,
    parameterResults: map<ParameterSpec, ValidationResult>,
    analyzer: Option<Analyzer>)
  {
    /** `wasSuccessful`: an analyzer was created. */
    predicate WasSuccessful()
    {
      analyzer.Some?
    }
  }

  /** The global result and every parameter result are valid. */
  predicate AllValid(globalResult: ValidationResult, parameterResults: map<ParameterSpec, ValidationResult>)
  {
    globalResult.valid && AllParametersValid(parameterResults)
  }

  /** Every parameter result is valid. */
  predicate AllParametersValid(parameterResults: map<ParameterSpec, ValidationResult>)
  {
    forall s :: s in parameterResults ==> parameterResults[s].valid
  }

  /**
   * The private constructor's checks: the parameter results are keyed by
   * exactly the type's declared specs, and an analyzer is present exactly
   * when every result is valid.
   */
  function NewCreationResult(analyzerType: AnalyzerType, analyzer: Option<Analyzer>, globalResult: ValidationResult,
                             parameterResults: map<ParameterSpec, ValidationResult>)
    : (res: Result<CreationResult>)
    ensures res.Ok? <==> parameterResults.Keys == analyzerType.SpecSet() && (analyzer.Some? <==> AllValid(globalResult, parameterResults))
    ensures res.Err? ==> res.error == IllegalArgument
    ensures res.Ok? ==> res.value == CreationResult(globalResult, parameterResults, analyzer)
  {
    if parameterResults.Keys != analyzerType.SpecSet() then Err(IllegalArgument)
    else if analyzer.None? && AllValid(globalResult, parameterResults) then Err(IllegalArgument)
    else if analyzer.Some? && !AllValid(globalResult, parameterResults) then Err(IllegalArgument)
    else Ok(CreationResult(globalResult, parameterResults, analyzer))
  }

  /** The public constructor for a success: the type is the analyzer's own. */
  function NewSuccessResult(analyzer: Analyzer, globalResult: ValidationResult, parameterResults: map<ParameterSpec, ValidationResult>)
    : (res: Result<CreationResult>)
    ensures res.Ok? <==> parameterResults.Keys == analyzer.analyzerType.SpecSet() && AllValid(globalResult, parameterResults)
    ensures res.Ok? ==> res.value.WasSuccessful() && res.value.analyzer.value == analyzer
  {
    NewCreationResult(analyzer.analyzerType, Some(analyzer), globalResult, parameterResults)
  }

  /** The public constructor for a failure: some result must be invalid. */
  function NewFailureResult(analyzerType: AnalyzerType, globalResult: ValidationResult,
                            parameterResults: map<ParameterSpec, ValidationResult>)
    : (res: Result<CreationResult>)
    ensures res.Ok? <==> parameterResults.Keys == analyzerType.SpecSet() && !AllValid(globalResult, parameterResults)
    ensures res.Ok? ==> !res.value.WasSuccessful()
  {
    NewCreationResult(analyzerType, None, globalResult, parameterResults)
  }

  /**
   * With the spec of one type given to another whose declared specs differ,
   * the failure result cannot be built: a type with one parameter asked to
   * build from the spec of a type with none.
   */
  method ForeignSpecRejectedAsWritten(showSet: SetText) returns (asWritten: Result<CreationResult>, corrected: CreationResult)
    ensures asWritten == Err(IllegalArgument)
    ensures !corrected.WasSuccessful() && !corrected.globalResult.valid
  {
    var p := new ParameterSpec(Describable("Flag", "A flag"), "flag", BoolType, AlwaysValid(), Null);
    assert !IsWhitespace("a"[0]) && !IsWhitespace("b"[0]);
    var withParameter := new AnalyzerType(Describable("A", "A type with a parameter"), "a", 1, false, [p]);
    var withoutParameter := new AnalyzerType(Describable("B", "A type without parameters"), "b", 1, false, []);
    assert p in withParameter.SpecSet();
    var spec := AnalyzerSpec(Describable("Spec", "A spec for B"), withoutParameter, false, map[]);
    asWritten := withParameter.TryCreateAnalyzerAsWritten(spec, showSet);
    corrected := withParameter.TryCreateAnalyzer(spec, showSet);
  }

  // ---------------------------------------------------------------------
  // Comment
  // ---------------------------------------------------------------------

  /** A comment an analyzer made about a selection of the story. */
  datatype Comment = Comment(analyzer: Analyzer, content: string, selection: TextRange)

  /** The constructor's checks: the content must not be empty. */
  function NewComment(analyzer: Analyzer, content: string, selection: TextRange): (res: Result<Comment>)
    ensures res.Ok? <==> content != []
    ensures res.Ok? ==> res.value.analyzer == analyzer && res.value.content == content && res.value.selection == selection
    ensures res.Err? ==> res.error == IllegalArgument
  {
    if content == [] then Err(IllegalArgument) else Ok(Comment(analyzer, content, selection))
  }

  /**
   * `String.compareTo`: the difference of the first differing characters,
   * or, when one string is a prefix of the other, the difference of the
   * lengths.
   */
  function StringCompareTo(a: string, b: string): int
    decreases |a|
  {
    if a == [] || b == [] then |a| - |b|
    else if a[0] != b[0] then a[0] as int - b[0] as int
    else StringCompareTo(a[1..], b[1..])
  }

  /** `String.compareTo` is 0 exactly for equal strings. */
  lemma {:induction false} StringCompareToZero(a: string, b: string)
    ensures StringCompareTo(a, b) == 0 <==> a == b
    decreases |a|
  {
    if a != [] && b != [] && a[0] == b[0] {
      StringCompareToZero(a[1..], b[1..]);
      assert a == [a[0]] + a[1..] && b == [b[0]] + b[1..];
    }
  }

  /** Swapping the strings negates the comparison. */
  lemma {:induction false} StringCompareToAntisymmetric(a: string, b: string)
    ensures StringCompareTo(b, a) == -StringCompareTo(a, b)
    decreases |a|
  {
    if a != [] && b != [] && a[0] == b[0] {
      StringCompareToAntisymmetric(a[1..], b[1..]);
    }
  }

  /** The string order is transitive. */
  lemma {:induction false} StringCompareToTransitive(a: string, b: string, c: string)
    requires StringCompareTo(a, b) < 0 && StringCompareTo(b, c) < 0
    ensures StringCompareTo(a, c) < 0
    decreases |a|
  {
    if a != [] && b != [] && c != [] && a[0] == b[0] && b[0] == c[0] {
      StringCompareToTransitive(a[1..], b[1..], c[1..]);
    }
  }

  /**
   * `compareTo`: by selection first; for equal selections, analyzers that
   * are the same object compare equal and the contents decide, while two
   * different analyzers fail, as analyzers are not `Comparable`.
   */
  function CompareComments(a: Comment, b: Comment): Result<int>
  {
    var bySelection := CompareTo(a.selection, b.selection);
    if bySelection != 0 then Ok(bySelection)
    else if a.analyzer != b.analyzer then Err(ClassCast)
    else Ok(StringCompareTo(a.content, b.content))
  }

  /** `equals`: `compareTo` is 0. */
  function CommentEquals(a: Comment, b: Comment): Result<bool>
  {
    var c := CompareComments(a, b);
    if c.Err? then Err(c.error) else Ok(c.value == 0)
  }

  /** Two comments are compared without failing unless they share a selection but not an analyzer. */
  lemma {:induction false} CompareCommentsFails(a: Comment, b: Comment)
    ensures CompareComments(a, b).Err? <==> a.selection == b.selection && a.analyzer != b.analyzer
    ensures CompareComments(a, b).Err? ==> CompareComments(a, b).error == ClassCast
  {
    CompareToIsTotalOrder(a.selection, b.selection, b.selection);
  }

  /** Comments are equal exactly when they are the same value: same analyzer, content and selection. */
  lemma {:induction false} CommentEqualsIff(a: Comment, b: Comment)
    ensures CommentEquals(a, b) == Ok(true) <==> a == b
  {
    CompareToIsTotalOrder(a.selection, b.selection, b.selection);
    StringCompareToZero(a.content, b.content);
  }

  /** With the same analyzer and content, comments compare exactly as their selections do. */
  lemma {:induction false} CompareBySelection(a: Comment, b: Comment)
    requires a.analyzer == b.analyzer && a.content == b.content
    ensures CompareComments(a, b) == Ok(CompareTo(a.selection, b.selection))
  {
    StringCompareToZero(a.content, b.content);
  }

  /** Swapping two comments negates their comparison (when it does not fail). */
  lemma {:induction false} CompareCommentsAntisymmetric(a: Comment, b: Comment)
    requires CompareComments(a, b).Ok?
    ensures CompareComments(b, a) == Ok(-CompareComments(a, b).value)
  {
    CompareToIsTotalOrder(a.selection, b.selection, b.selection);
    CompareToIsTotalOrder(b.selection, a.selection, a.selection);
    StringCompareToAntisymmetric(a.content, b.content);
  }

  // ---------------------------------------------------------------------
  // AnalyzerResult
  // ---------------------------------------------------------------------

  /** The comments and summary components an analyzer produced (stored as value copies). */
  datatype AnalyzerResult = AnalyzerResult(analyzer: Analyzer, comments: seq<Comment>, summaryComponents: seq<SummaryComponent>)

  /** The constructor's checks: an analyzer type that advertises no comments must not produce any. */
  function NewAnalyzerResult(analyzer: Analyzer, comments: seq<Comment>, summaryComponents: seq<SummaryComponent>)
    : (res: Result<AnalyzerResult>)
    ensures res.Ok? <==> analyzer.analyzerType.producesComments || comments == []
    ensures res.Ok? ==> res.value == AnalyzerResult(analyzer, comments, summaryComponents)
    ensures res.Err? ==> res.error == IllegalArgument
  {
    if !analyzer.analyzerType.producesComments && comments != [] then Err(IllegalArgument)
    else Ok(AnalyzerResult(analyzer, comments, summaryComponents))
  }

  /** `getComments`: nothing when the analyzer suppresses comment recording, otherwise the stored comments. */
  function GetComments(r: AnalyzerResult): (cs: seq<Comment>)
    ensures r.analyzer.commentRecordingSuppressed ==> cs == []
    ensures !r.analyzer.commentRecordingSuppressed ==> cs == r.comments
  {
    if r.analyzer.commentRecordingSuppressed then [] else r.comments
  }

  /** Calls `pre`, then the calls of `e`, ending as `e` ends. */
  function Prefixed(pre: seq<SummaryEvent>, e: Emission): Emission
  {
    Emission(pre + e.events, e.failure)
  }

  /** The calls `writeSummary` makes: the analyzer's name as a level-2 heading, its description, then its components. */
  function AnalyzerSummary(r: AnalyzerResult): Emission
  {
    Prefixed([WriteHeading(r.analyzer.describable.name, 2), WriteText(r.analyzer.describable.description)],
             ComponentsEmission(r.summaryComponents))
  }

  /**
   * The summary starts with the heading and the description, fails exactly
   * when a component is a table, and otherwise holds one call per component.
   */
  lemma {:induction false} AnalyzerSummarySpec(r: AnalyzerResult)
    ensures |AnalyzerSummary(r).events| >= 2
    ensures AnalyzerSummary(r).events[0] == WriteHeading(r.analyzer.describable.name, 2)
    ensures AnalyzerSummary(r).events[1] == WriteText(r.analyzer.describable.description)
    ensures AnalyzerSummary(r).failure.Some? <==> exists k :: 0 <= k < |r.summaryComponents| && r.summaryComponents[k].Table?
    ensures AnalyzerSummary(r).failure.None? ==> |AnalyzerSummary(r).events| == 2 + |r.summaryComponents|
  {
    ComponentsEmissionSpec(r.summaryComponents);
  }

  /** `writeSummary`: the heading and description, then each component in order, until one throws. */
  method WriteAnalyzerSummary(r: AnalyzerResult, writer: RecordingWriter) returns (failure: Option<Error>)
    modifies writer
    ensures writer.events == old(writer.events) + AnalyzerSummary(r).events
    ensures failure == AnalyzerSummary(r).failure
  {
    writer.Write(WriteHeading(r.analyzer.describable.name, 2));
    writer.Write(WriteText(r.analyzer.describable.description));
    failure := WriteComponents(r.summaryComponents, writer);
  }
}
