/**
 * The file ids the directory-based custom analyzer registry gives a saved
 * analyzer: its name made file-friendly, then the first of "base.sia",
 * "base_1.sia", "base_2.sia", ... whose file does not exist yet. Whether a
 * file exists is the parameter `fileExists`.
 */
module CustomAnalyzerIds {
  import opened Wrappers
  import opened Characters
  import opened Analysis

  /** How many ids are tried before giving up. */
  const Attempts := 100000

  /** A character the sanitiser keeps: a letter, a digit, whitespace or '_'. */
  predicate Kept(c: char)
  {
    IsLetterOrDigit(c) || IsWhitespace(c) || c == '_'
  }

  /** A character of a base name. */
  predicate FileFriendly(c: char)
  {
    IsLetterOrDigit(c) || c == '_'
  }

  /** The sanitiser's map step: whitespace becomes '_'. */
  function Underscored(c: char): (d: char)
    requires Kept(c)
    ensures FileFriendly(d) && !IsWhitespace(d)
    ensures FileFriendly(c) ==> d == c
  {
    if IsWhitespace(c) then '_' else c
  }

  /** The base name: the kept characters of the analyzer's name, in order, with whitespace turned into '_'. */
  function BaseName(name: string): (b: string)
    ensures |b| <= |name|
    ensures forall k :: 0 <= k < |b| ==> FileFriendly(b[k]) && !IsWhitespace(b[k])
    decreases |name|
  {
    if name == [] then []
    else (if Kept(name[0]) then [Underscored(name[0])] else []) + BaseName(name[1..])
  }

  /** Sanitising works character by character. */
  lemma {:induction false} BaseNameAppend(a: string, b: string)
    ensures BaseName(a + b) == BaseName(a) + BaseName(b)
    decreases |a|
  {
    if a == [] {
      assert a + b == b;
    } else {
      var head := if Kept(a[0]) then [Underscored(a[0])] else [];
      assert (a + b)[0] == a[0] && (a + b)[1..] == a[1..] + b;
      assert BaseName(a + b) == head + BaseName(a[1..] + b);
      BaseNameAppend(a[1..], b);
      assert head + (BaseName(a[1..]) + BaseName(b)) == (head + BaseName(a[1..])) + BaseName(b);
    }
  }

  /** A name made only of letters, digits and '_' is its own base name. */
  lemma {:induction false} BaseNameOfFriendly(name: string)
    requires forall k :: 0 <= k < |name| ==> FileFriendly(name[k])
    ensures BaseName(name) == name
    decreases |name|
  {
    if name != [] {
      BaseNameOfFriendly(name[1..]);
    }
  }

  /** Sanitising twice is sanitising once. */
  lemma {:induction false} BaseNameIdempotent(name: string)
    ensures BaseName(BaseName(name)) == BaseName(name)
  {
    BaseNameOfFriendly(BaseName(name));
  }

  /** `idFromBaseName`: "base.sia" for 0, "base_i.sia" after it. */
  function IdFromBaseName(base: string, i: nat): (id: string)
    ensures EndsWithSia(id) && |base| < |id|
    ensures id[..|base|] == base
  {
    if i == 0 then base + ".sia" else base + "_" + NatToString(i) + ".sia"
  }

  /** The `.sia` extension. */
  predicate EndsWithSia(s: string)
  {
    |s| >= 4 && s[|s| - 4..] == ".sia"
  }

  /** Different attempts give different ids. */
  lemma {:induction false} IdInjective(base: string, i: nat, j: nat)
    ensures IdFromBaseName(base, i) == IdFromBaseName(base, j) <==> i == j
  {
    var a, b := IdFromBaseName(base, i), IdFromBaseName(base, j);
    if i > 0 && j > 0 && a == b {
      var n := |base| + 1;
      assert a[n..|a| - 4] == NatToString(i);
      assert b[n..|b| - 4] == NatToString(j);
      NatToStringInjective(i, j);
    } else if (i > 0) != (j > 0) {
      assert |a| != |b|;
    }
  }

  /** Every generated id passes the registry's file filter, the lower-cased name ending with ".sia". */
  lemma {:induction false} IdListed(base: string, i: nat)
    ensures EndsWithSia(LowerCase(IdFromBaseName(base, i)))
  {
    LowerCaseKeepsSia(IdFromBaseName(base, i));
  }

  /** Lower-casing keeps the `.sia` extension. */
  lemma {:induction false} LowerCaseKeepsSia(s: string)
    requires EndsWithSia(s)
    ensures EndsWithSia(LowerCase(s))
  {
    var low := LowerCase(s);
    forall k | |low| - 4 <= k < |low|
      ensures low[k] == s[k]
    {
      assert s[k] == s[|s| - 4..][k - (|s| - 4)];
    }
    assert low[|low| - 4..] == s[|s| - 4..];
  }

  /** The id of the i-th attempt for an analyzer. */
  function Attempt(analyzer: Analyzer, i: nat): string
  {
    IdFromBaseName(BaseName(analyzer.describable.name), i)
  }

  /**
   * `generateIdForAnalyzer`: the id of the first attempt below 100000
   * whose file does not exist, or a RuntimeException when every one of
   * them exists.
   */
  method GenerateIdForAnalyzer(analyzer: Analyzer, fileExists: string -> bool) returns (res: Result<string>)
    ensures res.Err? <==> forall i: nat :: i < Attempts ==> fileExists(Attempt(analyzer, i))
    ensures res.Err? ==> res.error == Runtime
    ensures res.Ok? ==>
      exists i: nat :: i < Attempts && res.value == Attempt(analyzer, i) &&
        !fileExists(res.value) && forall j: nat :: j < i ==> fileExists(Attempt(analyzer, j))
  {
    var base := BaseName(analyzer.describable.name);
    for i := 0 to Attempts
      invariant forall j: nat :: j < i ==> fileExists(Attempt(analyzer, j))
    {
      var id := IdFromBaseName(base, i);
      if !fileExists(id) {
        assert !fileExists(Attempt(analyzer, i));
        return Ok(id);
      }
    }
    return Err(Runtime);
  }
}
