/**
 * The validation layer of the analysis package: validation results, the
 * parameter validators built from them, parameter specifications and the
 * name/description pair every describable object carries.
 */
module Validation {
  import opened Wrappers
  import opened Characters

  // ---------------------------------------------------------------------
  // Parameter values and parameter classes
  // ---------------------------------------------------------------------

  /** The values stored for analyzer parameters (`Object` in the source); `Null` is Java's null. */
  datatype Value =
    | Null
    | BoolValue(b: bool)
    | IntValue(i: int)
    | StringValue(s: string)
    | StringSetValue(ss: set<string>)

  /** The parameter classes (`Class<T>`) analyzer types declare for their parameters. */
  datatype ParameterType = BoolType | IntType | StringType | StringSetType

  /** `Class.isInstance`: null is an instance of no class. */
  predicate IsInstance(t: ParameterType, v: Value)
  {
    match t
    case BoolType => v.BoolValue?
    case IntType => v.IntValue?
    case StringType => v.StringValue?
    case StringSetType => v.StringSetValue?
  }

  /**
   * `AbstractCollection.toString` of a HashSet of strings. Its element order
   * is the set's iteration order, which Java leaves unspecified, so the
   * rendering is a parameter wherever a set is printed.
   */
  type SetText = set<string> -> string

  /** Decimal printing of an int, with a leading '-' for negative numbers. */
  function IntToString(i: int): (s: string)
    ensures |s| >= 1
  {
    if i < 0 then "-" + NatToString(-i) else NatToString(i)
  }

  /** How string concatenation prints a parameter value. */
  function ValueText(v: Value, showSet: SetText): string
  {
    match v
    case Null => "null"
    case BoolValue(b) => if b then "true" else "false"
    case IntValue(i) => IntToString(i)
    case StringValue(s) => s
    case StringSetValue(ss) => showSet(ss)
  }

  // ---------------------------------------------------------------------
  // ValidationResult
  // ---------------------------------------------------------------------

  datatype ValidationData = ValidationData(valid: bool, errors: seq<string>)

  /**
   * The results the two factories can make: the constructor is private and
   * both factories keep "valid exactly when there are no errors".
   */
  type ValidationResult = r: ValidationData | r.valid <==> r.errors == [] witness ValidationData(true, [])

  /** `validResult`: the shared valid result. */
  const ValidResult: ValidationResult := ValidationData(true, [])

  /** `invalidResult`: refuses an empty error list, and keeps the errors in the given order. */
  function InvalidResult(errors: seq<string>): (res: Result<ValidationResult>)
    ensures res.Ok? <==> errors != []
    ensures res.Ok? ==> !res.value.valid && res.value.errors == errors
    ensures res.Err? ==> res.error == IllegalArgument
  {
    if errors == [] then Err(IllegalArgument)
    else
      var r: ValidationResult := ValidationData(false, errors);
      Ok(r)
  }

  /** The invalid result of a single message, as the varargs `invalidResult(msg)` makes it. */
  function Invalid(message: string): (r: ValidationResult)
    ensures InvalidResult([message]) == Ok(r)
  {
    ValidationData(false, [message])
  }

  // ---------------------------------------------------------------------
  // ParameterValidator
  // ---------------------------------------------------------------------

  /** A validator of one parameter value (the functional interface `ParameterValidator`). */
  type ParameterValidator = Value -> ValidationResult

  /** `alwaysValid`: every value passes, null included. */
  function AlwaysValid(): (v: ParameterValidator)
    ensures forall p :: v(p).valid
  {
    p => ValidResult
  }

  /** `notNull`: a value passes exactly when it is not null, and the failure reads "<name> must be specified". */
  function NotNull(parameterName: string): (v: ParameterValidator)
    ensures forall p :: v(p).valid <==> p != Null
    ensures forall p :: !v(p).valid ==> v(p).errors == [parameterName + " must be specified"]
  {
    p => if p != Null then ValidResult else Invalid(parameterName + " must be specified")
  }

  /** `createValidator`: a value passes exactly when the predicate holds, and the failure is the given string. */
  function CreateValidator(predicate?: Value -> bool, errorString: string): (v: ParameterValidator)
    ensures forall p :: v(p).valid <==> predicate?(p)
    ensures forall p :: !v(p).valid ==> v(p).errors == [errorString]
  {
    p => if predicate?(p) then ValidResult else Invalid(errorString)
  }

  /** The errors of a list of results, result by result, in order (the `flatMap` of `concatenateValidators`). */
  function AllErrors(rs: seq<ValidationResult>): seq<string>
    decreases |rs|
  {
    if rs == [] then [] else rs[0].errors + AllErrors(rs[1..])
  }

  /** The errors are empty exactly when every result is valid. */
  lemma {:induction false} AllErrorsEmptyIff(rs: seq<ValidationResult>)
    ensures AllErrors(rs) == [] <==> forall k :: 0 <= k < |rs| ==> rs[k].valid
    decreases |rs|
  {
    if rs != [] {
      AllErrorsEmptyIff(rs[1..]);
      assert forall k :: 1 <= k < |rs| ==> rs[k] == rs[1..][k - 1];
    }
  }

  /** The errors of the results split at `k`: those before, then result k's, then those after. */
  lemma {:induction false} AllErrorsAt(rs: seq<ValidationResult>, k: nat)
    requires k < |rs|
    ensures AllErrors(rs) == AllErrors(rs[..k]) + rs[k].errors + AllErrors(rs[k + 1..])
    decreases k
  {
    if k > 0 {
      AllErrorsAt(rs[1..], k - 1);
      assert rs[1..][..k - 1] == rs[..k][1..];
      assert rs[1..][k - 1] == rs[k];
      assert rs[1..][k..] == rs[k + 1..];
    } else {
      assert rs[1..] == rs[k + 1..];
    }
  }

  /** What each validator says of `p`, in the validators' order. */
  function ResultsOf(validators: seq<ParameterValidator>, p: Value): (rs: seq<ValidationResult>)
    ensures |rs| == |validators| && forall k :: 0 <= k < |rs| ==> rs[k] == validators[k](p)
  {
    seq(|validators|, k requires 0 <= k < |validators| => validators[k](p))
  }

  /** The lambda `concatenateValidators` returns, applied to `p`. */
  function Concatenated(validators: seq<ParameterValidator>, p: Value): (r: ValidationResult)
    ensures r.valid <==> forall k :: 0 <= k < |validators| ==> validators[k](p).valid
    ensures r.errors == AllErrors(ResultsOf(validators, p))
  {
    var results := ResultsOf(validators, p);
    AllErrorsEmptyIff(results);
    if forall k :: 0 <= k < |results| ==> results[k].valid then ValidResult
    else ValidationData(false, AllErrors(results))
  }

  /**
   * `concatenateValidators`: refuses an empty list; otherwise a value passes
   * exactly when every component passes, and the errors are the components'
   * errors in component order.
   */
  function ConcatenateValidators(validators: seq<ParameterValidator>): (res: Result<ParameterValidator>)
    ensures res.Ok? <==> validators != []
    ensures res.Err? ==> res.error == IllegalArgument
    ensures res.Ok? ==> forall p :: res.value(p) == Concatenated(validators, p)
  {
    if validators == [] then Err(IllegalArgument) else Ok(p => Concatenated(validators, p))
  }

  /** A single validator, concatenated, judges every value as it does alone. */
  lemma {:induction false} ConcatenateOne(v: ParameterValidator, p: Value)
    ensures ConcatenateValidators([v]).value(p) == v(p)
  {
    var rs := ResultsOf([v], p);
    assert rs[1..] == [];
    assert AllErrors(rs) == v(p).errors;
  }

  /** The errors of component k of a concatenation appear, as one block, in the concatenated errors. */
  lemma {:induction false} ConcatenatedKeepsErrors(validators: seq<ParameterValidator>, p: Value, k: nat)
    requires k < |validators|
    ensures exists before, after :: Concatenated(validators, p).errors == before + validators[k](p).errors + after
  {
    var rs := ResultsOf(validators, p);
    AllErrorsAt(rs, k);
    var before, after := AllErrors(rs[..k]), AllErrors(rs[k + 1..]);
    assert Concatenated(validators, p).errors == before + validators[k](p).errors + after;
  }

  // ---------------------------------------------------------------------
  // BaseDescribable
  // ---------------------------------------------------------------------

  /**
   * The name and description of a `BaseDescribable`. Datatype equality is
   * its `equals` (equal name and equal description), and the hash is built
   * from the same two fields.
   */
  datatype Describable = Describable(name: string, description: string)

  // ---------------------------------------------------------------------
  // ParameterSpec
  // ---------------------------------------------------------------------

  /**
   * A declared analyzer parameter. Its `equals` and `hashCode` are those of
   * the object's identity, which a class reference is.
   */
  class ParameterSpec {
    const describable: Describable
    const id: string
    const parameterType: ParameterType
    const parameterValidator: ParameterValidator
    const defaultValue: Value

    constructor (describable: Describable, id: string, parameterType: ParameterType, parameterValidator: ParameterValidator,
                 defaultValue: Value)
      ensures this.describable == describable && this.id == id && this.parameterType == parameterType
      ensures this.parameterValidator == parameterValidator && this.defaultValue == defaultValue
    {
      this.describable := describable;
      this.id := id;
      this.parameterType := parameterType;
      this.parameterValidator := parameterValidator;
      this.defaultValue := defaultValue;
    }

    /** `hasDefaultValue`: a default other than null was given. */
    predicate HasDefaultValue()
    {
      defaultValue != Null
    }
  }

  /** The full ParameterSpec constructor: the id must not be empty. */
  method NewParameterSpec(id: string, name: string, description: string, parameterType: ParameterType,
                          parameterValidator: ParameterValidator, defaultValue: Value)
    returns (res: Result<ParameterSpec>)
    ensures res.Ok? <==> id != []
    ensures res.Err? ==> res.error == IllegalArgument
    ensures res.Ok? ==> fresh(res.value) && res.value.id == id && res.value.describable == Describable(name, description)
    ensures res.Ok? ==> res.value.parameterType == parameterType && res.value.parameterValidator == parameterValidator
    ensures res.Ok? ==> res.value.defaultValue == defaultValue
  {
    if id == [] {
      return Err(IllegalArgument);
    }
    var spec := new ParameterSpec(Describable(name, description), id, parameterType, parameterValidator, defaultValue);
    return Ok(spec);
  }

  /** The constructor without a default value: the default is null, so there is none. */
  method NewParameterSpecWithoutDefault(id: string, name: string, description: string, parameterType: ParameterType,
                                        parameterValidator: ParameterValidator)
    returns (res: Result<ParameterSpec>)
    ensures res.Ok? <==> id != []
    ensures res.Ok? ==> fresh(res.value) && res.value.id == id && !res.value.HasDefaultValue()
    ensures res.Ok? ==> res.value.parameterValidator == parameterValidator
  {
    res := NewParameterSpec(id, name, description, parameterType, parameterValidator, Null);
  }

  /** The shortest constructor: no default value, and a validator that accepts everything. */
  method NewUnvalidatedParameterSpec(id: string, name: string, description: string, parameterType: ParameterType)
    returns (res: Result<ParameterSpec>)
    ensures res.Ok? <==> id != []
    ensures res.Ok? ==> fresh(res.value) && res.value.id == id && !res.value.HasDefaultValue()
    ensures res.Ok? ==> forall p :: res.value.parameterValidator(p).valid
  {
    res := NewParameterSpecWithoutDefault(id, name, description, parameterType, AlwaysValid());
  }
}
