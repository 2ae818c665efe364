/**
 * The comments a report adds to a docx story, their ids in the document
 * and the two maps from story offset to the comments starting or ending
 * there (DocXReportTranscriber's extractComments and
 * generateCommentsByStartIndex / generateCommentsByEndIndex).
 */
module CommentIds {
  import opened Wrappers
  import opened TextRanges
  import opened Analysis
  import opened Reports

  /** Every comment of a report: section by section, result by result, in order. */
  function ResultsComments(results: seq<AnalyzerResult>): seq<Comment>
    decreases |results|
  {
    if results == [] then [] else GetComments(results[0]) + ResultsComments(results[1..])
  }

  function SectionsComments(sections: seq<ReportSection>): seq<Comment>
    decreases |sections|
  {
    if sections == [] then [] else ResultsComments(sections[0].analyzerResults) + SectionsComments(sections[1..])
  }

  function ReportComments(r: Report): seq<Comment>
  {
    SectionsComments(r.sections)
  }

  /** A comment of a result is a comment of the sections holding that result. */
  lemma {:induction false} ResultCommentListed(results: seq<AnalyzerResult>, k: int, c: Comment)
    requires 0 <= k < |results| && c in GetComments(results[k])
    ensures c in ResultsComments(results)
    decreases |results|
  {
    if k > 0 {
      ResultCommentListed(results[1..], k - 1, c);
    }
  }

  /** Every recorded comment of every result of every section is one of the report's comments. */
  lemma {:induction false} SectionCommentListed(sections: seq<ReportSection>, s: int, k: int, c: Comment)
    requires 0 <= s < |sections| && 0 <= k < |sections[s].analyzerResults|
    requires c in GetComments(sections[s].analyzerResults[k])
    ensures c in SectionsComments(sections)
    decreases |sections|
  {
    if s > 0 {
      SectionCommentListed(sections[1..], s - 1, k, c);
    } else {
      ResultCommentListed(sections[0].analyzerResults, k, c);
    }
  }

  // ---------------------------------------------------------------------
  // Sorting by Comment.compareTo
  // ---------------------------------------------------------------------

  /** `compareTo` does not fail on this pair and puts `a` no later than `b`. */
  predicate CommentLe(a: Comment, b: Comment)
  {
    CompareComments(a, b).Ok? && CompareComments(a, b).value <= 0
  }

  /** `compareTo` fails on the pair: the same selection, different analyzers. */
  predicate Clash(a: Comment, b: Comment)
  {
    a.selection == b.selection && a.analyzer != b.analyzer
  }

  /** No two of the comments clash: `compareTo` never fails on them. */
  predicate Comparable(cs: seq<Comment>)
  {
    forall i, j :: 0 <= i < |cs| && 0 <= j < |cs| ==> !Clash(cs[i], cs[j])
  }

  predicate ClashFree(c: Comment, s: seq<Comment>)
  {
    forall k :: 0 <= k < |s| ==> !Clash(c, s[k])
  }

  /** `c` is no later than any of `s`. */
  predicate LeAll(c: Comment, s: seq<Comment>)
  {
    forall k :: 0 <= k < |s| ==> CommentLe(c, s[k])
  }

  predicate Sorted(cs: seq<Comment>)
  {
    forall i, j :: 0 <= i < j < |cs| ==> CommentLe(cs[i], cs[j])
  }

  lemma {:induction false} CommentLeTotal(a: Comment, b: Comment)
    requires !(a.selection == b.selection && a.analyzer != b.analyzer)
    ensures CommentLe(a, b) || CommentLe(b, a)
  {
    CompareCommentsFails(a, b);
    CompareCommentsAntisymmetric(a, b);
  }

  lemma {:induction false} CommentLeTransitive(a: Comment, b: Comment, c: Comment)
    requires CommentLe(a, b) && CommentLe(b, c)
    ensures CommentLe(a, c)
  {
    CompareToIsTotalOrder(a.selection, b.selection, c.selection);
    CompareToIsTotalOrder(a.selection, c.selection, c.selection);
    if a.selection == b.selection && b.selection == c.selection {
      var x, y := StringCompareTo(a.content, b.content), StringCompareTo(b.content, c.content);
      StringCompareToZero(a.content, b.content);
      StringCompareToZero(b.content, c.content);
      if x < 0 && y < 0 {
        StringCompareToTransitive(a.content, b.content, c.content);
      }
    }
  }

  /** Comments `compareTo` puts each no later than the other are the same comment. */
  lemma {:induction false} CommentLeAntisymmetric(a: Comment, b: Comment)
    requires CommentLe(a, b) && CommentLe(b, a)
    ensures a == b
  {
    CompareCommentsAntisymmetric(a, b);
    CommentEqualsIff(a, b);
  }

  /** `c` placed into sorted `s` before the first comment it does not follow. */
  function Insert(c: Comment, s: seq<Comment>): seq<Comment>
    decreases |s|
  {
    if s == [] then [c]
    else if CommentLe(c, s[0]) then [c] + s
    else [s[0]] + Insert(c, s[1..])
  }

  /** The comments in `compareTo` order (the stream's `sorted`). */
  function SortComments(cs: seq<Comment>): seq<Comment>
    decreases |cs|
  {
    if cs == [] then [] else Insert(cs[0], SortComments(cs[1..]))
  }

  lemma {:induction false} InsertPermutes(c: Comment, s: seq<Comment>)
    ensures multiset(Insert(c, s)) == multiset(s) + multiset{c}
    decreases |s|
  {
    if s != [] && !CommentLe(c, s[0]) {
      InsertPermutes(c, s[1..]);
      assert s == [s[0]] + s[1..];
    }
  }

  lemma {:induction false} ConsSorted(c: Comment, s: seq<Comment>)
    requires LeAll(c, s) && Sorted(s)
    ensures Sorted([c] + s)
  {
    var r := [c] + s;
    forall i, j | 0 <= i < j < |r|
      ensures CommentLe(r[i], r[j])
    {
      if i > 0 {
        assert r[i] == s[i - 1];
      }
      assert r[j] == s[j - 1];
    }
  }

  lemma {:induction false} SortedHead(s: seq<Comment>)
    requires s != [] && Sorted(s)
    ensures LeAll(s[0], s[1..]) && Sorted(s[1..])
  {
    SortedSuffix(s);
    forall k | 0 <= k < |s[1..]|
      ensures CommentLe(s[0], s[1..][k])
    {
      assert s[1..][k] == s[k + 1];
    }
  }

  lemma {:induction false} LeAllChain(c: Comment, s: seq<Comment>)
    requires s != [] && CommentLe(c, s[0]) && Sorted(s)
    ensures LeAll(c, s)
  {
    forall k | 0 <= k < |s|
      ensures CommentLe(c, s[k])
    {
      if k > 0 {
        CommentLeTransitive(c, s[0], s[k]);
      }
    }
  }

  /** A comment no later than all of `s` and than `c` stays no later than all of `s` with `c` inserted. */
  lemma {:induction false} InsertLeAll(y: Comment, c: Comment, s: seq<Comment>)
    requires LeAll(y, s) && CommentLe(y, c)
    ensures LeAll(y, Insert(c, s))
    decreases |s|
  {
    if s != [] {
      if CommentLe(c, s[0]) {
        var r := [c] + s;
        forall k | 0 <= k < |r|
          ensures CommentLe(y, r[k])
        {
          if k > 0 {
            assert r[k] == s[k - 1];
          }
        }
      } else {
        var t := Insert(c, s[1..]);
        assert LeAll(y, s[1..]) by {
          forall k | 0 <= k < |s[1..]|
            ensures CommentLe(y, s[1..][k])
          {
            assert s[1..][k] == s[k + 1];
          }
        }
        InsertLeAll(y, c, s[1..]);
        var r := [s[0]] + t;
        forall k | 0 <= k < |r|
          ensures CommentLe(y, r[k])
        {
          if k > 0 {
            assert r[k] == t[k - 1];
          }
        }
      }
    }
  }

  lemma {:induction false} InsertSorted(c: Comment, s: seq<Comment>)
    requires Sorted(s) && ClashFree(c, s)
    ensures Sorted(Insert(c, s))
    decreases |s|
  {
    if s != [] {
      if CommentLe(c, s[0]) {
        LeAllChain(c, s);
        ConsSorted(c, s);
      } else {
        CommentLeTotal(c, s[0]);
        SortedHead(s);
        assert ClashFree(c, s[1..]) by {
          forall k | 0 <= k < |s[1..]|
            ensures !Clash(c, s[1..][k])
          {
            assert s[1..][k] == s[k + 1];
          }
        }
        InsertSorted(c, s[1..]);
        InsertLeAll(s[0], c, s[1..]);
        ConsSorted(s[0], Insert(c, s[1..]));
      }
    }
  }

  lemma {:induction false} ComparableSuffix(cs: seq<Comment>)
    requires cs != [] && Comparable(cs)
    ensures Comparable(cs[1..])
  {
    forall i, j | 0 <= i < |cs[1..]| && 0 <= j < |cs[1..]|
      ensures !(cs[1..][i].selection == cs[1..][j].selection && cs[1..][i].analyzer != cs[1..][j].analyzer)
    {
      assert cs[1..][i] == cs[i + 1] && cs[1..][j] == cs[j + 1];
    }
  }

  /** A comment that clashes with none of `a` clashes with none of a rearrangement of `a`. */
  lemma {:induction false} ClashFreePermutation(c: Comment, a: seq<Comment>, b: seq<Comment>)
    requires multiset(a) == multiset(b) && ClashFree(c, a)
    ensures ClashFree(c, b)
  {
    forall k | 0 <= k < |b|
      ensures !Clash(c, b[k])
    {
      assert b[k] in multiset(a);
      var k' :| 0 <= k' < |a| && a[k'] == b[k];
    }
  }

  lemma {:induction false} ComparableHead(cs: seq<Comment>)
    requires cs != [] && Comparable(cs)
    ensures ClashFree(cs[0], cs[1..])
  {
    forall k | 0 <= k < |cs[1..]|
      ensures !Clash(cs[0], cs[1..][k])
    {
      assert cs[1..][k] == cs[k + 1];
    }
  }

  /** Sorting keeps exactly the comments it is given and, when `compareTo` never fails on them, puts them in its order. */
  lemma {:induction false} SortCommentsSpec(cs: seq<Comment>)
    ensures multiset(SortComments(cs)) == multiset(cs)
    ensures Comparable(cs) ==> Sorted(SortComments(cs))
    decreases |cs|
  {
    if cs != [] {
      SortCommentsSpec(cs[1..]);
      InsertPermutes(cs[0], SortComments(cs[1..]));
      assert cs == [cs[0]] + cs[1..];
      if Comparable(cs) {
        ComparableSuffix(cs);
        ComparableHead(cs);
        ClashFreePermutation(cs[0], cs[1..], SortComments(cs[1..]));
        InsertSorted(cs[0], SortComments(cs[1..]));
      }
    }
  }

  /**
   * The sorted order is unique: any two sorted arrangements of the same
   * comparable comments are equal, so it does not matter which sorting
   * algorithm the library uses.
   */
  lemma {:induction false} SortedUnique(a: seq<Comment>, b: seq<Comment>)
    requires Sorted(a) && Sorted(b) && multiset(a) == multiset(b)
    ensures a == b
    decreases |a|
  {
    assert |a| == |multiset(a)| == |b|;
    if a != [] {
      HeadsEqual(a, b);
      TailsPermuted(a, b);
      SortedSuffix(a);
      SortedSuffix(b);
      SortedUnique(a[1..], b[1..]);
      assert a == [a[0]] + a[1..] && b == [b[0]] + b[1..];
    }
  }

  /** The first of a sorted list is no later than any of its comments. */
  lemma {:induction false} HeadFirst(s: seq<Comment>, x: Comment)
    requires Sorted(s) && x in s
    ensures x == s[0] || CommentLe(s[0], x)
  {
    var k :| 0 <= k < |s| && s[k] == x;
  }

  lemma {:induction false} HeadsEqual(a: seq<Comment>, b: seq<Comment>)
    requires Sorted(a) && Sorted(b) && multiset(a) == multiset(b) && a != [] && b != []
    ensures a[0] == b[0]
  {
    assert a[0] in multiset(b) && b[0] in multiset(a);
    HeadFirst(b, a[0]);
    HeadFirst(a, b[0]);
    if a[0] != b[0] {
      CommentLeAntisymmetric(a[0], b[0]);
    }
  }

  lemma {:induction false} TailsPermuted(a: seq<Comment>, b: seq<Comment>)
    requires multiset(a) == multiset(b) && a != [] && b != [] && a[0] == b[0]
    ensures multiset(a[1..]) == multiset(b[1..])
  {
    assert a == [a[0]] + a[1..] && b == [b[0]] + b[1..];
    assert multiset(a) == multiset{a[0]} + multiset(a[1..]);
    assert multiset(b) == multiset{b[0]} + multiset(b[1..]);
    assert multiset(a[1..]) == multiset(a) - multiset{a[0]};
    assert multiset(b[1..]) == multiset(b) - multiset{b[0]};
  }

  lemma {:induction false} SortedSuffix(cs: seq<Comment>)
    requires cs != [] && Sorted(cs)
    ensures Sorted(cs[1..])
  {
    forall i, j | 0 <= i < j < |cs[1..]|
      ensures CommentLe(cs[1..][i], cs[1..][j])
    {
      assert cs[1..][i] == cs[i + 1] && cs[1..][j] == cs[j + 1];
    }
  }

  // ---------------------------------------------------------------------
  // extractComments
  // ---------------------------------------------------------------------

  /**
   * extractComments: the report's comments, sorted, each mapped to its
   * position in the sorted list (equal comments to the last of their
   * positions). Sorting fails with ClassCast when two comments share a
   * selection but not an analyzer.
   */
  method ExtractComments(r: Report) returns (res: Result<map<Comment, int>>)
    ensures res.Err? <==> !Comparable(ReportComments(r))
    ensures res.Err? ==> res.error == ClassCast
    ensures res.Ok? ==> res.value == CommentIdsOf(r)
    ensures res.Ok? ==> var sorted := SortComments(ReportComments(r));
      Sorted(sorted) && multiset(sorted) == multiset(ReportComments(r)) &&
      (forall c :: c in res.value <==> c in ReportComments(r)) &&
      forall c :: c in res.value ==> IdOf(sorted, c, res.value[c])
  {
    var comments := ReportComments(r);
    if !Comparable(comments) {
      return Err(ClassCast);
    }
    var sorted := SortComments(comments);
    SortCommentsSpec(comments);
    var ids := Positions(sorted);
    forall c
      ensures c in ids <==> c in comments
    {
      MultisetMembers(sorted, comments, c);
    }
    res := Ok(ids);
  }

  /** The map the loop of extractComments builds: each comment to its position, a later position replacing an earlier one. */
  function LastPositions(sorted: seq<Comment>): map<Comment, int>
    decreases |sorted|
  {
    if sorted == [] then map[] else LastPositions(sorted[..|sorted| - 1])[sorted[|sorted| - 1] := |sorted| - 1]
  }

  /** The ids are exactly the listed comments, each at its last position. */
  lemma {:induction false} LastPositionsSpec(sorted: seq<Comment>)
    ensures forall c :: c in LastPositions(sorted) <==> c in sorted
    ensures forall c :: c in LastPositions(sorted) ==> IdOf(sorted, c, LastPositions(sorted)[c])
    decreases |sorted|
  {
    if sorted != [] {
      var n := |sorted| - 1;
      var front := sorted[..n];
      LastPositionsSpec(front);
      assert sorted == front + [sorted[n]];
      forall c | c in LastPositions(sorted)
        ensures IdOf(sorted, c, LastPositions(sorted)[c])
      {
        if c != sorted[n] {
          assert IdOf(front, c, LastPositions(front)[c]);
        }
      }
    }
  }

  /** The loop of extractComments: each comment of the list mapped to its position, a later position replacing an earlier one. */
  method Positions(sorted: seq<Comment>) returns (ids: map<Comment, int>)
    ensures ids == LastPositions(sorted)
    ensures forall c :: c in ids <==> c in sorted
    ensures forall c :: c in ids ==> IdOf(sorted, c, ids[c])
  {
    ids := map[];
    for i := 0 to |sorted|
      invariant ids == LastPositions(sorted[..i])
    {
      assert sorted[..i + 1][..i] == sorted[..i];
      ids := ids[sorted[i] := i];
    }
    assert sorted[..|sorted|] == sorted;
    LastPositionsSpec(sorted);
  }

  /** The ids extractComments gives the report's comments (when they can be sorted). */
  function CommentIdsOf(r: Report): map<Comment, int>
  {
    LastPositions(SortComments(ReportComments(r)))
  }

  /** `id` is the last position of `c` in the sorted list. */
  predicate IdOf(sorted: seq<Comment>, c: Comment, id: int)
  {
    0 <= id < |sorted| && sorted[id] == c && forall j :: id < j < |sorted| ==> sorted[j] != c
  }

  /** Ids are positions in the sorted list, so different comments get different ids, all in [0, n). */
  lemma {:induction false} IdsDistinct(sorted: seq<Comment>, c: Comment, d: Comment, i: int, j: int)
    requires IdOf(sorted, c, i) && IdOf(sorted, d, j) && c != d
    ensures i != j && 0 <= i < |sorted| && 0 <= j < |sorted|
  {
  }

  lemma {:induction false} MultisetMembers(sorted: seq<Comment>, comments: seq<Comment>, c: Comment)
    requires multiset(sorted) == multiset(comments)
    ensures c in sorted <==> c in comments
  {
    assert c in sorted <==> c in multiset(sorted);
    assert c in comments <==> c in multiset(comments);
  }

  // ---------------------------------------------------------------------
  // generateCommentsByStartIndex / generateCommentsByEndIndex
  // ---------------------------------------------------------------------

  function Starts(comments: set<Comment>): set<int>
  {
    set c | c in comments :: c.selection.start
  }

  function StartingAt(comments: set<Comment>, l: int): set<Comment>
  {
    set c | c in comments && c.selection.start == l
  }

  function Ends(comments: set<Comment>): set<int>
  {
    set c | c in comments :: c.selection.end
  }

  function EndingAt(comments: set<Comment>, l: int): set<Comment>
  {
    set c | c in comments && c.selection.end == l
  }

  /** The comments grouped by the offset where their selection starts. */
  function CommentsByStartIndex(comments: set<Comment>): (m: map<int, set<Comment>>)
    ensures forall c :: c in comments ==> c.selection.start in m && c in m[c.selection.start]
    ensures forall l :: l in m ==> m[l] != {} && forall c :: c in m[l] ==> c in comments && c.selection.start == l
  {
    map l | l in Starts(comments) :: StartingAt(comments, l)
  }

  /** The comments grouped by the offset where their selection ends. */
  function CommentsByEndIndex(comments: set<Comment>): (m: map<int, set<Comment>>)
    ensures forall c :: c in comments ==> c.selection.end in m && c in m[c.selection.end]
    ensures forall l :: l in m ==> m[l] != {} && forall c :: c in m[l] ==> c in comments && c.selection.end == l
  {
    map l | l in Ends(comments) :: EndingAt(comments, l)
  }
}
