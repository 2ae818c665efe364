/**
 * Half-open character ranges [start, end) over a text, with containment,
 * intersection, translation and the lexicographic ordering the rest of the
 * system relies on (story/TextRange.java).
 */
module TextRanges {
  import opened Wrappers

  datatype TextRange = TextRange(start: int, end: int)

  /** What the constructor checks: 0 <= start <= end. */
  predicate WellFormed(r: TextRange)
  {
    0 <= r.start <= r.end
  }

  /** `new TextRange(start, end)`: rejects a negative start or an end before the start. */
  function Make(start: int, end: int): (res: Result<TextRange>)
    ensures res.Ok? <==> 0 <= start <= end
    ensures res.Ok? ==> WellFormed(res.value) && res.value.start == start && res.value.end == end
    ensures res.Err? ==> res.error == IllegalArgument
  {
    if start >= 0 && end >= start then Ok(TextRange(start, end)) else Err(IllegalArgument)
  }

  function Length(r: TextRange): (n: int)
    ensures WellFormed(r) ==> n >= 0
    ensures n == 0 <==> r.start == r.end
  {
    r.end - r.start
  }

  /** `contains(int)`: the end offset is excluded. */
  predicate ContainsPoint(r: TextRange, p: int)
  {
    r.start <= p < r.end
  }

  /** `contains(TextRange)`: `other` lies entirely inside `r`. */
  predicate ContainsRange(r: TextRange, other: TextRange)
  {
    r.start <= other.start && other.end <= r.end
  }

  /** `intersects`: one range contains the other's start. */
  predicate Intersects(a: TextRange, b: TextRange)
  {
    ContainsPoint(a, b.start) || ContainsPoint(b, a.start)
  }

  /** `getCoveredText`: `String.substring`, which throws when the range runs past the text. */
  function CoveredText(r: TextRange, text: string): (res: Result<string>)
    ensures res.Ok? <==> 0 <= r.start <= r.end <= |text|
    ensures res.Ok? ==>
      |res.value| == Length(r) && forall k :: 0 <= k < |res.value| ==> res.value[k] == text[r.start + k]
  {
    if 0 <= r.start <= r.end <= |text| then Ok(text[r.start..r.end]) else Err(IndexOutOfBounds)
  }

  /** `translate(k)`: a new range shifted by k, so the constructor check applies again. */
  function Translate(r: TextRange, k: int): (res: Result<TextRange>)
    requires WellFormed(r)
    ensures res.Ok? <==> r.start + k >= 0
    ensures res.Ok? ==>
      WellFormed(res.value) && Length(res.value) == Length(r) && res.value.start - r.start == k
  {
    Make(r.start + k, r.end + k)
  }

  /** `intersectsRangeSet`: some member of the set intersects `r`. */
  predicate IntersectsRangeSet(r: TextRange, s: set<TextRange>)
  {
    exists x :: x in s && Intersects(x, r)
  }

  /** `compareTo`: `CompareToBuilder` over (start, end), giving -1, 0 or 1. */
  function CompareTo(a: TextRange, b: TextRange): (c: int)
    ensures -1 <= c <= 1
    ensures c == 0 <==> a == b
    ensures c < 0 <==> a.start < b.start || (a.start == b.start && a.end < b.end)
  {
    if a.start < b.start then -1
    else if a.start > b.start then 1
    else if a.end < b.end then -1
    else if a.end > b.end then 1
    else 0
  }

  /** `equals`: defined through `compareTo`. */
  predicate Equals(a: TextRange, b: TextRange)
  {
    CompareTo(a, b) == 0
  }

  // ---------------------------------------------------------------------
  // Properties
  // ---------------------------------------------------------------------

  /** `intersects` does not depend on the order of its arguments. */
  lemma {:induction false} IntersectsSymmetric(a: TextRange, b: TextRange)
    ensures Intersects(a, b) == Intersects(b, a)
  {
  }

  /**
   * For non-empty ranges, `intersects` means sharing a character position;
   * an empty range intersects exactly the ranges that contain its start.
   */
  lemma {:induction false} IntersectsIffSharedPosition(a: TextRange, b: TextRange)
    requires WellFormed(a) && WellFormed(b)
    ensures Length(a) > 0 && Length(b) > 0 ==>
      (Intersects(a, b) <==> exists p :: ContainsPoint(a, p) && ContainsPoint(b, p))
    ensures Length(a) == 0 ==> (Intersects(a, b) <==> ContainsPoint(b, a.start))
  {
    if Length(a) > 0 && Length(b) > 0 {
      if Intersects(a, b) {
        var p := if a.start < b.start then b.start else a.start;
        assert ContainsPoint(a, p) && ContainsPoint(b, p);
      }
    }
  }

  /** Two ranges that meet at an offset, like [0,5) and [5,10), intersect only if the first is empty. */
  lemma {:induction false} AdjacentRangesIntersection(a: TextRange, b: TextRange)
    requires WellFormed(a) && WellFormed(b) && a.end == b.start
    ensures Intersects(a, b) <==> Length(a) == 0 && Length(b) > 0
  {
  }

  /** A non-empty range inside another one intersects it. */
  lemma {:induction false} ContainedIntersects(outer: TextRange, inner: TextRange)
    requires WellFormed(inner) && Length(inner) > 0 && ContainsRange(outer, inner)
    ensures Intersects(outer, inner)
  {
  }

  /** translate(k) followed by translate(-k) gives back the original range. */
  lemma {:induction false} TranslateRoundTrip(r: TextRange, k: int)
    requires WellFormed(r) && Translate(r, k).Ok?
    ensures Translate(Translate(r, k).value, -k) == Ok(r)
  {
  }

  /** Translating both ranges by the same distance keeps whether they intersect. */
  lemma {:induction false} TranslatePreservesIntersects(a: TextRange, b: TextRange, k: int)
    requires WellFormed(a) && WellFormed(b) && Translate(a, k).Ok? && Translate(b, k).Ok?
    ensures Intersects(Translate(a, k).value, Translate(b, k).value) == Intersects(a, b)
  {
  }

  /** `compareTo` is a total order: antisymmetric and transitive. */
  lemma {:induction false} CompareToIsTotalOrder(a: TextRange, b: TextRange, c: TextRange)
    ensures CompareTo(a, b) == -CompareTo(b, a)
    ensures CompareTo(a, b) <= 0 && CompareTo(b, c) <= 0 ==> CompareTo(a, c) <= 0
  {
  }

  /** `equals` agrees with structural equality of (start, end). */
  lemma {:induction false} EqualsIsIdentity(a: TextRange, b: TextRange)
    ensures Equals(a, b) <==> a.start == b.start && a.end == b.end
  {
  }

  /** intersectsRangeSet over a union is the disjunction over its parts. */
  lemma {:induction false} IntersectsRangeSetUnion(r: TextRange, s: set<TextRange>, t: set<TextRange>)
    ensures IntersectsRangeSet(r, s + t) <==> IntersectsRangeSet(r, s) || IntersectsRangeSet(r, t)
    ensures !IntersectsRangeSet(r, {})
  {
  }
}
