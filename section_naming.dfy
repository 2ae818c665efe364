/**
 * The name a new report section gets in the report specification editor:
 * "New section", or the first "New section i" (i = 2, 3, ...) not yet
 * used by a section of the report.
 */
module SectionNaming {
  import opened Wrappers
  import opened Characters
  import opened Reports

  const Base := "New section"

  /** "New section i". */
  function Candidate(i: nat): string
  {
    Base + " " + NatToString(i)
  }

  /** The names of the report's sections, as the set `generateNewSectionName` collects. */
  function SectionNames(spec: ReportSpec): set<string>
  {
    set s | s in spec.sectionSpecs :: s.describable.name
  }

  /** Different numbers give different candidates, and none of them is the base name. */
  lemma {:induction false} CandidateInjective(i: nat, j: nat)
    ensures Candidate(i) != Base
    ensures Candidate(i) == Candidate(j) ==> i == j
  {
    assert |Candidate(i)| > |Base|;
    if Candidate(i) == Candidate(j) {
      var n := |Base| + 1;
      assert Candidate(i)[n..] == NatToString(i);
      assert Candidate(j)[n..] == NatToString(j);
      NatToStringInjective(i, j);
    }
  }

  /** The candidates 2 .. n + 1. */
  function Candidates(n: nat): set<string>
  {
    set j | 2 <= j <= n + 1 :: Candidate(j)
  }

  /** There are n of them, none of them the base name. */
  lemma {:induction false} CandidatesSize(n: nat)
    ensures |Candidates(n)| == n && Base !in Candidates(n)
    decreases n
  {
    if n > 0 {
      CandidatesSize(n - 1);
      CandidatesStep(n);
    }
  }

  /** Candidates(n) adds one new candidate to Candidates(n - 1). */
  lemma {:induction false} CandidatesStep(n: nat)
    requires n > 0
    ensures Candidates(n) == Candidates(n - 1) + {Candidate(n + 1)}
    ensures Candidate(n + 1) !in Candidates(n - 1) && Candidate(n + 1) != Base
  {
    CandidateInjective(n + 1, n + 1);
    forall j | 2 <= j <= n
      ensures Candidate(j) != Candidate(n + 1)
    {
      CandidateInjective(j, n + 1);
    }
  }

  /**
   * Why the source's throw is unreachable: with "New section" among n
   * distinct names, the n candidates 2 .. n + 1 cannot all be taken.
   */
  lemma {:induction false} SomeCandidateFree(names: set<string>)
    requires Base in names
    ensures exists j :: 2 <= j <= |names| + 1 && Candidate(j) !in names
  {
    if forall j :: 2 <= j <= |names| + 1 ==> Candidate(j) in names {
      var taken := Candidates(|names|) + {Base};
      CandidatesSize(|names|);
      assert taken <= names;
      assert |taken| == |names| + 1;
      SubsetSize(taken, names);
      assert false;
    }
  }

  lemma {:induction false} SubsetSize(a: set<string>, b: set<string>)
    requires a <= b
    ensures |a| <= |b|
  {
    assert b == a + (b - a);
  }

  /**
   * `generateNewSectionName`: "New section" when no section has that name,
   * otherwise "New section i" for the smallest i >= 2 no section has; the
   * result is never a name already in use, and it always exists.
   */
  method GenerateNewSectionName(spec: ReportSpec) returns (res: Result<string>)
    ensures res.Ok? && res.value !in SectionNames(spec)
    ensures Base !in SectionNames(spec) ==> res.value == Base
    ensures Base in SectionNames(spec) ==>
      exists i :: 2 <= i <= |SectionNames(spec)| + 1 && res.value == Candidate(i) &&
        forall j :: 2 <= j < i ==> Candidate(j) in SectionNames(spec)
  {
    var names := SectionNames(spec);
    if Base !in names {
      return Ok(Base);
    }
    for i := 2 to |names| + 2
      invariant forall j :: 2 <= j < i ==> Candidate(j) in names
    {
      var name := Base + " " + NatToString(i);
      if name !in names {
        assert name == Candidate(i);
        return Ok(name);
      }
    }
    SomeCandidateFree(names);
    assert false;
  }
}
