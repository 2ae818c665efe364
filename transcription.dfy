/**
 * Adding a report's comments to the docx story it was extracted from
 * (DocXReportTranscriber's addCommentsToSourceDocument and
 * insertCommentsIntoParagraph): each text paragraph is split at the comment
 * boundaries that fall inside its range, and the comment markers are
 * inserted in front of the child at each boundary.
 */
module Transcription {
  import opened Wrappers
  import opened TextRanges
  import opened Analysis
  import opened ExtractedDocuments
  import opened Reports
  import opened CommentIds
  import opened CommentSplitting
  import StoryTree

  /** Offset -> the comments starting (or ending) there. */
  type Index = map<int, set<Comment>>

  /** Every comment of the index has an id: the index was built from the id map's keys. */
  predicate Known(m: Index, ids: map<Comment, int>)
  {
    forall l, c :: l in m && c in m[l] ==> c in ids
  }

  /**
   * The comments of `s` in the order a HashSet iterates over them, which
   * depends on hash codes: `order` stands for that order.
   */
  function Listing(order: seq<Comment>, s: set<Comment>): seq<Comment>
    decreases |order|
  {
    if order == [] then []
    else (if order[0] in s then [order[0]] else []) + Listing(order[1..], s)
  }

  lemma {:induction false} ListingMembers(order: seq<Comment>, s: set<Comment>, c: Comment)
    ensures c in Listing(order, s) <==> c in s && c in order
    decreases |order|
  {
    if order != [] {
      ListingMembers(order[1..], s, c);
      assert order == [order[0]] + order[1..];
    }
  }

  /**
   * A comment's id. Every comment reaching the markers has one (see
   * Known); the default only makes the lookup total.
   */
  function Lookup(ids: map<Comment, int>, c: Comment): int
  {
    if c in ids then ids[c] else -1
  }

  /** generateCommentStart for each comment, in order. */
  function StartMarkers(cs: seq<Comment>, ids: map<Comment, int>): seq<Child>
    decreases |cs|
  {
    if cs == [] then [] else [CommentStart(Lookup(ids, cs[0]))] + StartMarkers(cs[1..], ids)
  }

  /** generateCommentEnd then generateCommentReference for each comment, in order. */
  function EndMarkers(cs: seq<Comment>, ids: map<Comment, int>): seq<Child>
    decreases |cs|
  {
    if cs == [] then [] else [CommentEnd(Lookup(ids, cs[0])), CommentReference(Lookup(ids, cs[0]))] + EndMarkers(cs[1..], ids)
  }

  lemma {:induction false} ListingKnown(order: seq<Comment>, m: Index, ids: map<Comment, int>, l: int)
    requires Known(m, ids) && l in m
    ensures forall k :: 0 <= k < |Listing(order, m[l])| ==> Listing(order, m[l])[k] in ids
  {
    forall k | 0 <= k < |Listing(order, m[l])|
      ensures Listing(order, m[l])[k] in ids
    {
      ListingMembers(order, m[l], Listing(order, m[l])[k]);
    }
  }

  /** The start markers due at `location`: one per comment starting there, if the offset is still in the index. */
  function Opening(location: int, starts: Index, ids: map<Comment, int>, order: seq<Comment>): seq<Child>
  {
    if location in starts then StartMarkers(Listing(order, starts[location]), ids)
    else []
  }

  /** The end and reference markers due at `location`. */
  function Closing(location: int, ends: Index, ids: map<Comment, int>, order: seq<Comment>): seq<Child>
  {
    if location in ends then EndMarkers(Listing(order, ends[location]), ids)
    else []
  }

  /** What inserting markers yields: the new children and what is left of the two indexes. */
  datatype Marking = Marking(children: seq<Child>, starts: Index, ends: Index)

  /**
   * The marker loop of insertCommentsIntoParagraph over the split children
   * `cs`, the first starting at `location`: before each child, the markers
   * still due at its offset, whose entries are then removed; runs move the
   * offset on by their text.
   */
  function Mark(cs: seq<Child>, location: int, starts: Index, ends: Index, ids: map<Comment, int>, order: seq<Comment>): Marking
    decreases |cs|
  {
    if cs == [] then Marking([], starts, ends)
    else
      var rest := Mark(cs[1..], location + |ChildText(cs[0])|, starts - {location}, ends - {location}, ids, order);
      Marking(Opening(location, starts, ids, order) + Closing(location, ends, ids, order) + [cs[0]] + rest.children,
              rest.starts, rest.ends)
  }

  /** The offsets at which the children begin. */
  function Offsets(cs: seq<Child>, location: int): set<int>
    decreases |cs|
  {
    if cs == [] then {} else {location} + Offsets(cs[1..], location + |ChildText(cs[0])|)
  }

  /** The offset just past the children's text. */
  function End(cs: seq<Child>, location: int): int
    decreases |cs|
  {
    if cs == [] then location else End(cs[1..], location + |ChildText(cs[0])|)
  }

  lemma {:induction false} EndIsLength(cs: seq<Child>, location: int)
    ensures End(cs, location) == location + |ParagraphText(cs)|
    decreases |cs|
  {
    if cs != [] {
      EndIsLength(cs[1..], location + |ChildText(cs[0])|);
      ParagraphTextFront(cs);
    }
  }

  // ---------------------------------------------------------------------
  // What marking does
  // ---------------------------------------------------------------------

  /** Exactly the offsets at which a child begins leave the indexes. */
  lemma {:induction false} MarkRemoves(cs: seq<Child>, location: int, starts: Index, ends: Index, ids: map<Comment, int>, order: seq<Comment>)
    ensures Mark(cs, location, starts, ends, ids, order).starts == starts - Offsets(cs, location)
    ensures Mark(cs, location, starts, ends, ids, order).ends == ends - Offsets(cs, location)
    decreases |cs|
  {
    if cs != [] {
      var next := location + |ChildText(cs[0])|;
      MarkRemoves(cs[1..], next, starts - {location}, ends - {location}, ids, order);
      assert (starts - {location}) - Offsets(cs[1..], next) == starts - Offsets(cs, location);
      assert (ends - {location}) - Offsets(cs[1..], next) == ends - Offsets(cs, location);
    }
  }

  /** The children that are not comment markers, and the letters and elements of runs. */
  function Visible(atoms: seq<Atom>): seq<Atom>
    decreases |atoms|
  {
    if atoms == [] then []
    else (if IsMarker(atoms[0]) then [] else [atoms[0]]) + Visible(atoms[1..])
  }

  predicate IsMarker(a: Atom)
  {
    a.Outside? && (a.child.CommentStart? || a.child.CommentEnd? || a.child.CommentReference?)
  }

  /** A paragraph's content apart from comment markers. */
  function Content(cs: seq<Child>): seq<Atom>
  {
    Visible(Atoms(cs))
  }

  lemma {:induction false} VisibleAppend(a: seq<Atom>, b: seq<Atom>)
    ensures Visible(a + b) == Visible(a) + Visible(b)
    decreases |a|
  {
    if a != [] {
      assert (a + b)[0] == a[0] && (a + b)[1..] == a[1..] + b;
      VisibleAppend(a[1..], b);
    } else {
      assert a + b == b;
    }
  }

  predicate AllMarkers(cs: seq<Child>)
  {
    forall k :: 0 <= k < |cs| ==> cs[k].CommentStart? || cs[k].CommentEnd? || cs[k].CommentReference?
  }

  lemma {:induction false} MarkersInvisible(cs: seq<Child>)
    requires AllMarkers(cs)
    ensures Content(cs) == []
    decreases |cs|
  {
    if cs != [] {
      assert AllMarkers(cs[1..]) by {
        forall k | 0 <= k < |cs[1..]|
          ensures cs[1..][k].CommentStart? || cs[1..][k].CommentEnd? || cs[1..][k].CommentReference?
        {
          assert cs[1..][k] == cs[k + 1];
        }
      }
      MarkersInvisible(cs[1..]);
      var a := ChildAtoms(cs[0]);
      assert a == [Outside(cs[0])] && a[1..] == [];
      VisibleAppend(a, Atoms(cs[1..]));
    }
  }

  lemma {:induction false} EndMarkersAreMarkers(cs: seq<Comment>, ids: map<Comment, int>)
    ensures AllMarkers(EndMarkers(cs, ids))
    decreases |cs|
  {
    if cs != [] {
      EndMarkersAreMarkers(cs[1..], ids);
      var e := EndMarkers(cs, ids);
      assert e == [CommentEnd(Lookup(ids, cs[0])), CommentReference(Lookup(ids, cs[0]))] + EndMarkers(cs[1..], ids);
      forall k | 0 <= k < |e|
        ensures e[k].CommentStart? || e[k].CommentEnd? || e[k].CommentReference?
      {
        if k >= 2 {
          assert e[k] == EndMarkers(cs[1..], ids)[k - 2];
        }
      }
    }
  }

  lemma {:induction false} StartMarkersAreMarkers(cs: seq<Comment>, ids: map<Comment, int>)
    ensures AllMarkers(StartMarkers(cs, ids))
    decreases |cs|
  {
    if cs != [] {
      StartMarkersAreMarkers(cs[1..], ids);
      var e := StartMarkers(cs, ids);
      assert e == [CommentStart(Lookup(ids, cs[0]))] + StartMarkers(cs[1..], ids);
      forall k | 0 <= k < |e|
        ensures e[k].CommentStart? || e[k].CommentEnd? || e[k].CommentReference?
      {
        if k >= 1 {
          assert e[k] == StartMarkers(cs[1..], ids)[k - 1];
        }
      }
    }
  }

  /** Markers due at an offset are nothing but markers. */
  lemma {:induction false} DueMarkers(location: int, starts: Index, ends: Index, ids: map<Comment, int>, order: seq<Comment>)
    ensures AllMarkers(Opening(location, starts, ids, order) + Closing(location, ends, ids, order))
  {
    var o: seq<Child>, c: seq<Child> := Opening(location, starts, ids, order), Closing(location, ends, ids, order);
    if location in starts {
      StartMarkersAreMarkers(Listing(order, starts[location]), ids);
    }
    if location in ends {
      EndMarkersAreMarkers(Listing(order, ends[location]), ids);
    }
    forall k | 0 <= k < |o + c|
      ensures (o + c)[k].CommentStart? || (o + c)[k].CommentEnd? || (o + c)[k].CommentReference?
    {
      if k >= |o| {
        assert (o + c)[k] == c[k - |o|];
      }
    }
  }

  /** Inserting markers leaves the paragraph's content, apart from the markers, as it was. */
  lemma {:induction false} MarkKeepsContent(cs: seq<Child>, location: int, starts: Index, ends: Index, ids: map<Comment, int>, order: seq<Comment>)
    ensures Content(Mark(cs, location, starts, ends, ids, order).children) == Content(cs)
    decreases |cs|
  {
    if cs != [] {
      var next := location + |ChildText(cs[0])|;
      var rest := Mark(cs[1..], next, starts - {location}, ends - {location}, ids, order);
      MarkKeepsContent(cs[1..], next, starts - {location}, ends - {location}, ids, order);
      var due := Opening(location, starts, ids, order) + Closing(location, ends, ids, order);
      DueMarkers(location, starts, ends, ids, order);
      MarkersInvisible(due);
      AtomsAppend(due, [cs[0]] + rest.children);
      AtomsAppend([cs[0]], rest.children);
      VisibleAppend(Atoms(due), Atoms([cs[0]] + rest.children));
      VisibleAppend(Atoms([cs[0]]), Atoms(rest.children));
      assert due + [cs[0]] + rest.children == due + ([cs[0]] + rest.children);
      assert cs == [cs[0]] + cs[1..];
      AtomsAppend([cs[0]], cs[1..]);
      VisibleAppend(Atoms([cs[0]]), Atoms(cs[1..]));
    }
  }

  /** Marking a list whose first child is `h` and whose other children are `t`: the markers due, `h`, then the marking of `t` (`rest`). */
  lemma MarkFront(cs: seq<Child>, h: Child, t: seq<Child>, location: int, starts: Index, ends: Index, ids: map<Comment, int>,
                  order: seq<Comment>, rest: Marking)
    requires cs != [] && h == cs[0] && t == cs[1..]
    requires rest == Mark(t, location + |ChildText(h)|, starts - {location}, ends - {location}, ids, order)
    ensures Mark(cs, location, starts, ends, ids, order) ==
      Marking(Opening(location, starts, ids, order) + Closing(location, ends, ids, order) + [h] + rest.children, rest.starts, rest.ends)
  {
  }

  /** Marking a list `ab` in two parts `a` and `b`: the second part (`m2`) starts where the first (`m1`) left the offset and the indexes. */
  lemma {:induction false} MarkAppend(a: seq<Child>, b: seq<Child>, ab: seq<Child>, location: int, starts: Index, ends: Index,
                                      ids: map<Comment, int>, order: seq<Comment>, m1: Marking, m2: Marking)
    requires ab == a + b
    requires m1 == Mark(a, location, starts, ends, ids, order)
    requires m2 == Mark(b, End(a, location), m1.starts, m1.ends, ids, order)
    ensures Mark(ab, location, starts, ends, ids, order) == Marking(m1.children + m2.children, m2.starts, m2.ends)
    decreases |a|
  {
    if a == [] {
      assert ab == b;
    } else {
      var h, t := a[0], a[1..];
      var next := location + |ChildText(h)|;
      var head := Opening(location, starts, ids, order) + Closing(location, ends, ids, order) + [h];
      var r1 := Mark(t, next, starts - {location}, ends - {location}, ids, order);
      MarkFront(a, h, t, location, starts, ends, ids, order, r1);
      assert End(a, location) == End(t, next);
      TailOfAppend(a, b);
      var tb := t + b;
      var r2 := Mark(tb, next, starts - {location}, ends - {location}, ids, order);
      MarkAppend(t, b, tb, next, starts - {location}, ends - {location}, ids, order, r1, m2);
      MarkFront(ab, h, tb, location, starts, ends, ids, order, r2);
      Associative(head, r1.children, m2.children);
    }
  }

  lemma {:induction false} ParagraphTextFront(a: seq<Child>)
    requires a != []
    ensures |ParagraphText(a)| == |ChildText(a[0])| + |ParagraphText(a[1..])|
  {
    assert ChildTexts(a)[1..] == ChildTexts(a[1..]);
  }

  /**
   * Where the markers go: the k-th child is preceded by the markers still
   * due at its offset (all those of comments starting or ending there,
   * unless an earlier child began at the same offset), put after what the
   * children before it yielded.
   */
  lemma {:induction false} MarkPlacement(cs: seq<Child>, k: int, location: int, starts: Index, ends: Index, ids: map<Comment, int>, order: seq<Comment>)
    requires 0 <= k < |cs|
    ensures var m1 := Mark(cs[..k], location, starts, ends, ids, order);
      var at := End(cs[..k], location);
      var rest := Mark(cs[k + 1..], at + |ChildText(cs[k])|, m1.starts - {at}, m1.ends - {at}, ids, order);
      Mark(cs, location, starts, ends, ids, order).children ==
        m1.children + (Opening(at, m1.starts, ids, order) + Closing(at, m1.ends, ids, order) + [cs[k]] + rest.children)
  {
    var a, b, h, t := cs[..k], cs[k..], cs[k], cs[k + 1..];
    Around(cs, k, a, b, h, t);
    var m1 := Mark(a, location, starts, ends, ids, order);
    var at := End(a, location);
    var m2 := Mark(b, at, m1.starts, m1.ends, ids, order);
    MarkAppend(a, b, cs, location, starts, ends, ids, order, m1, m2);
    var rest := Mark(t, at + |ChildText(h)|, m1.starts - {at}, m1.ends - {at}, ids, order);
    MarkFront(b, h, t, at, m1.starts, m1.ends, ids, order, rest);
  }

  /** A list around its k-th element `h`: the elements before it, then `h` and the elements after it (`t`). */
  lemma Around<T>(s: seq<T>, k: int, a: seq<T>, b: seq<T>, h: T, t: seq<T>)
    requires 0 <= k < |s| && a == s[..k] && b == s[k..] && h == s[k] && t == s[k + 1..]
    ensures s == a + b && b != [] && h == b[0] && t == b[1..]
  {
    Suffixes(s, k);
  }

  /**
   * With no location strictly inside a child, every location inside the
   * children's text is an offset at which a child begins.
   */
  lemma {:induction false} BoundariesAreOffsets(cs: seq<Child>, location: int, locations: set<int>, l: int)
    requires NoCutInside(ChildTexts(cs), location, locations)
    requires l in locations && location <= l < location + |ParagraphText(cs)|
    ensures l in Offsets(cs, location)
    decreases |cs|
  {
    if cs != [] && l != location {
      var t := ChildTexts(cs);
      assert t[0] == ChildText(cs[0]) && t[1..] == ChildTexts(cs[1..]);
      ParagraphTextFront(cs);
      BoundariesAreOffsets(cs[1..], location + |ChildText(cs[0])|, locations, l);
    }
  }

  // ---------------------------------------------------------------------
  // insertCommentsIntoParagraph
  // ---------------------------------------------------------------------

  /** The `subMap(lo, true, hi, false)` view: the entries with offsets in [lo, hi). */
  function Restrict(m: Index, lo: int, hi: int): (r: Index)
    ensures forall l :: l in r <==> l in m && lo <= l < hi
    ensures forall l :: l in r ==> r[l] == m[l]
  {
    map l | l in m && lo <= l < hi :: m[l]
  }

  /** `m2` holds some of the entries of `m1`, unchanged. */
  predicate SubIndex(m2: Index, m1: Index)
  {
    forall l :: l in m2 ==> l in m1 && m2[l] == m1[l]
  }

  /**
   * What insertCommentsIntoParagraph makes of a paragraph whose parsed range
   * is `range`: with no comment starting or ending in [start, end) the
   * children and both indexes as they are; otherwise the children split at
   * those offsets and marked, and the indexes without the entries the
   * marking handled.
   */
  function InsertComments(children: seq<Child>, range: TextRange, byStart: Index, byEnd: Index,
                          ids: map<Comment, int>, order: seq<Comment>): Marking
  {
    var ps, pe := Restrict(byStart, range.start, range.end), Restrict(byEnd, range.start, range.end);
    if ps == map[] && pe == map[] then Marking(children, byStart, byEnd)
    else
      var m := Mark(ParagraphParts(children, ps.Keys + pe.Keys, range.start), range.start, ps, pe, ids, order);
      Marking(m.children, (byStart - ps.Keys) + m.starts, (byEnd - pe.Keys) + m.ends)
  }

  /** Marking "cd" and an empty run from offset 2, where one comment starts: its start marker, then both runs. */
  lemma MarkStartExample(c: Comment, cd: Child, empty: Child, ps: Index, pe: Index, ids: map<Comment, int>, order: seq<Comment>)
    requires cd == Run(7, [Item.Text("cd")]) && empty == Run(7, [])
    requires ps == map[2 := {c}] && pe == map[] && ids == map[c := 0] && order == [c]
    ensures Mark([cd, empty], 2, ps, pe, ids, order) == Marking([CommentStart(0), cd, empty], map[], map[])
  {
    var none: Index := map[];
    assert ChildText(cd) == "cd" && ChildText(empty) == "";
    var m3 := Mark([], 4, none, none, ids, order);
    var m2 := Mark([empty], 4, none, none, ids, order);
    assert none - {4} == none;
    MarkFront([empty], empty, [], 4, none, none, ids, order, m3);
    assert Listing(order, ps[2]) == [c] by {
      assert order[1..] == [];
    }
    assert StartMarkers([c], ids) == [CommentStart(0)] by {
      assert [c][1..] == [];
    }
    assert Opening(2, ps, ids, order) == [CommentStart(0)];
    assert ps - {2} == none && pe - {2} == none;
    MarkFront([cd, empty], cd, [empty], 2, ps, pe, ids, order, m2);
  }

  /** Marking the runs "ab", "cd" and an empty one from offset 0: nothing is due at 0, so the start marker lands in front of "cd". */
  lemma MarkSplitExample(c: Comment, ab: Child, cd: Child, empty: Child, all: seq<Child>, tail: seq<Child>, ps: Index, pe: Index, ids: map<Comment, int>, order: seq<Comment>)
    requires ab == Run(7, [Item.Text("ab")]) && cd == Run(7, [Item.Text("cd")]) && empty == Run(7, [])
    requires tail == [cd, empty] && all == [ab, cd, empty]
    requires ps == map[2 := {c}] && pe == map[] && ids == map[c := 0] && order == [c]
    ensures Mark(all, 0, ps, pe, ids, order) == Marking([ab, CommentStart(0), cd, empty], map[], map[])
  {
    assert |ChildText(ab)| == 2 by {
      assert ChildText(ab) == "ab";
    }
    var m1 := Mark(tail, 2, ps, pe, ids, order);
    MarkStartExample(c, cd, empty, ps, pe, ids, order);
    assert ps - {0} == ps && pe - {0} == pe;
    assert all[0] == ab && all[1..] == tail;
    MarkFront(all, ab, tail, 0, ps, pe, ids, order, m1);
  }

  /**
   * A comment over [2, 4) in a paragraph "abcd" whose range is [0, 4): the
   * run is split at 2 and the start marker goes in front of "cd"; the end
   * at 4 lies outside [0, 4), so its entry stays in the index for the
   * paragraph that follows.
   */
  lemma InsertCommentsExample(c: Comment, children: seq<Child>, byStart: Index, byEnd: Index, ids: map<Comment, int>, order: seq<Comment>)
    requires children == [Run(7, [Item.Text("abcd")])]
    requires byStart == map[2 := {c}] && byEnd == map[4 := {c}] && ids == map[c := 0] && order == [c]
    ensures InsertComments(children, TextRange(0, 4), byStart, byEnd, ids, order) ==
      Marking([Run(7, [Item.Text("ab")]), CommentStart(0), Run(7, [Item.Text("cd")]), Run(7, [])], map[], byEnd)
  {
    var ps, pe := Restrict(byStart, 0, 4), Restrict(byEnd, 0, 4);
    RestrictExample(c, byStart, byEnd, ps, pe);
    var ab, cd, empty := Run(7, [Item.Text("ab")]), Run(7, [Item.Text("cd")]), Run(7, []);
    RunPartsCutExample();
    assert ParagraphParts(children, {2}, 0) == [ab, cd, empty] by {
      assert children[1..] == [];
    }
    MarkSplitExample(c, ab, cd, empty, [ab, cd, empty], [cd, empty], ps, pe, ids, order);
  }

  /** Of a start at 2 and an end at 4 only the start lies in [0, 4); what the paragraph leaves of the indexes is the end alone. */
  lemma RestrictExample(c: Comment, byStart: Index, byEnd: Index, ps: Index, pe: Index)
    requires byStart == map[2 := {c}] && byEnd == map[4 := {c}]
    requires ps == Restrict(byStart, 0, 4) && pe == Restrict(byEnd, 0, 4)
    ensures ps == byStart && pe == map[] && ps != map[]
    ensures ps.Keys + pe.Keys == {2} && (byStart - ps.Keys) + map[] == map[] && (byEnd - pe.Keys) + map[] == byEnd
  {
    assert pe.Keys == {};
    assert 2 in ps && ps.Keys == byStart.Keys;
  }

  /** The appending of the markers due at the current offset: one start marker per comment, in iteration order. */
  method EmitStarts(out0: seq<Child>, cs: seq<Comment>, ids: map<Comment, int>) returns (out: seq<Child>)
    requires forall k :: 0 <= k < |cs| ==> cs[k] in ids
    ensures out == out0 + StartMarkers(cs, ids)
  {
    out := out0;
    for j := 0 to |cs|
      invariant out == out0 + StartMarkers(cs[..j], ids)
    {
      assert cs[..j + 1] == cs[..j] + [cs[j]];
      StartMarkersSnoc(cs[..j], cs[j], ids);
      out := out + [CommentStart(ids[cs[j]])];
    }
    assert cs[..|cs|] == cs;
  }

  lemma {:induction false} EndMarkersSnoc(cs: seq<Comment>, c: Comment, ids: map<Comment, int>)
    ensures EndMarkers(cs + [c], ids) == EndMarkers(cs, ids) + [CommentEnd(Lookup(ids, c)), CommentReference(Lookup(ids, c))]
    decreases |cs|
  {
    if cs == [] {
      assert [c][1..] == [];
    } else {
      assert (cs + [c])[1..] == cs[1..] + [c];
      EndMarkersSnoc(cs[1..], c, ids);
    }
  }

  lemma {:induction false} StartMarkersSnoc(cs: seq<Comment>, c: Comment, ids: map<Comment, int>)
    ensures StartMarkers(cs + [c], ids) == StartMarkers(cs, ids) + [CommentStart(Lookup(ids, c))]
    decreases |cs|
  {
    if cs == [] {
      assert [c][1..] == [];
    } else {
      assert (cs + [c])[1..] == cs[1..] + [c];
      StartMarkersSnoc(cs[1..], c, ids);
    }
  }

  /** One end marker and one reference marker per comment ending at the current offset, in iteration order. */
  method EmitEnds(out0: seq<Child>, cs: seq<Comment>, ids: map<Comment, int>) returns (out: seq<Child>)
    requires forall k :: 0 <= k < |cs| ==> cs[k] in ids
    ensures out == out0 + EndMarkers(cs, ids)
  {
    out := out0;
    for j := 0 to |cs|
      invariant out == out0 + EndMarkers(cs[..j], ids)
    {
      assert cs[..j + 1] == cs[..j] + [cs[j]];
      EndMarkersSnoc(cs[..j], cs[j], ids);
      out := out + [CommentEnd(ids[cs[j]]), CommentReference(ids[cs[j]])];
    }
    assert cs[..|cs|] == cs;
  }

  /** One turn of the marker loop: the markers due at the child's offset, then the child. */
  method MarkerStep(out0: seq<Child>, cs: seq<Child>, i: int, location0: int, starts0: Index, ends0: Index,
                    ids: map<Comment, int>, order: seq<Comment>)
      returns (out: seq<Child>, location: int, starts: Index, ends: Index)
    requires Known(starts0, ids) && Known(ends0, ids) && 0 <= i < |cs|
    ensures Known(starts, ids) && Known(ends, ids)
    ensures var m0 := Mark(cs[i..], location0, starts0, ends0, ids, order);
      var m := Mark(cs[i + 1..], location, starts, ends, ids, order);
      out + m.children == out0 + m0.children && m.starts == m0.starts && m.ends == m0.ends
  {
    out, location, starts, ends := EmitMarkers(out0, cs[i], location0, starts0, ends0, ids, order);
    MarkStep(out0, cs, i, location0, starts0, ends0, ids, order, out, location, starts, ends);
  }

  /**
   * The body of the marker loop for one child: the start markers due at its
   * offset, then the end and reference markers, each offset leaving its
   * index, then the child itself; a run moves the offset on by its text.
   */
  method EmitMarkers(out0: seq<Child>, child: Child, location0: int, starts0: Index, ends0: Index,
                     ids: map<Comment, int>, order: seq<Comment>)
      returns (out: seq<Child>, location: int, starts: Index, ends: Index)
    requires Known(starts0, ids) && Known(ends0, ids)
    ensures out == out0 + (Opening(location0, starts0, ids, order) + Closing(location0, ends0, ids, order) + [child])
    ensures location == location0 + |ChildText(child)|
    ensures starts == starts0 - {location0} && ends == ends0 - {location0}
    ensures Known(starts, ids) && Known(ends, ids)
  {
    var o, c := Opening(location0, starts0, ids, order), Closing(location0, ends0, ids, order);
    out, starts, ends := out0, starts0, ends0;
    if location0 in starts {
      ListingKnown(order, starts, ids, location0);
      out := EmitStarts(out, Listing(order, starts[location0]), ids);
      starts := starts - {location0};
    } else {
      assert starts - {location0} == starts && out0 + o == out0;
    }
    var afterStarts := out;
    if location0 in ends {
      ListingKnown(order, ends, ids, location0);
      out := EmitEnds(out, Listing(order, ends[location0]), ids);
      ends := ends - {location0};
    } else {
      assert ends - {location0} == ends && afterStarts + c == afterStarts;
    }
    out := out + [child];
    location := location0;
    if child.Run? {
      location := location + |ChildText(child)|;
    }
    Associative(out0, o, c);
    Associative(out0, o + c, [child]);
  }

  /** One child's markers and the child, followed by the marking of what comes after it, make the marking from that child on. */
  lemma {:induction false} MarkStep(out0: seq<Child>, cs: seq<Child>, i: int, location0: int, starts0: Index, ends0: Index,
                                    ids: map<Comment, int>, order: seq<Comment>,
                                    out: seq<Child>, location: int, starts: Index, ends: Index)
    requires 0 <= i < |cs|
    requires out == out0 + (Opening(location0, starts0, ids, order) + Closing(location0, ends0, ids, order) + [cs[i]])
    requires location == location0 + |ChildText(cs[i])|
    requires starts == starts0 - {location0} && ends == ends0 - {location0}
    ensures var m0 := Mark(cs[i..], location0, starts0, ends0, ids, order);
      var m := Mark(cs[i + 1..], location, starts, ends, ids, order);
      out + m.children == out0 + m0.children && m.starts == m0.starts && m.ends == m0.ends
  {
    var rest := Mark(cs[i + 1..], location, starts, ends, ids, order);
    Suffixes(cs, i);
    MarkFront(cs[i..], cs[i], cs[i + 1..], location0, starts0, ends0, ids, order, rest);
    Associative(out0, Opening(location0, starts0, ids, order) + Closing(location0, ends0, ids, order) + [cs[i]], rest.children);
  }

  /** The marker loop over the split children (the ListIterator walk). */
  method InsertMarkers(cs: seq<Child>, location0: int, starts0: Index, ends0: Index, ids: map<Comment, int>, order: seq<Comment>)
      returns (out: seq<Child>, starts: Index, ends: Index)
    requires Known(starts0, ids) && Known(ends0, ids)
    ensures Mark(cs, location0, starts0, ends0, ids, order) == Marking(out, starts, ends)
  {
    out, starts, ends := [], starts0, ends0;
    var location := location0;
    assert cs[0..] == cs;
    for i := 0 to |cs|
      invariant Known(starts, ids) && Known(ends, ids)
      invariant var m := Mark(cs[i..], location, starts, ends, ids, order);
        var total := Mark(cs, location0, starts0, ends0, ids, order);
        out + m.children == total.children && m.starts == total.starts && m.ends == total.ends
    {
      out, location, starts, ends := MarkerStep(out, cs, i, location, starts, ends, ids, order);
    }
    assert cs[|cs|..] == [];
  }

  /**
   * insertCommentsIntoParagraph for the paragraph whose parsed range is
   * `range`. With no comment starting or ending in [start, end) the
   * paragraph and both indexes are left as they are. Otherwise the children
   * are split at those offsets (`split`) and marked; the entries handled
   * leave the indexes, which otherwise keep all their entries. Either way the
   * paragraph's content apart from markers is unchanged, and when the
   * range ends within the paragraph's text every boundary in it has been
   * handled.
   */
  method InsertCommentsIntoParagraph(children: seq<Child>, range: TextRange, byStart: Index, byEnd: Index,
                                     ids: map<Comment, int>, order: seq<Comment>)
      returns (content: seq<Child>, newStart: Index, newEnd: Index, ghost split: seq<Child>)
    requires Known(byStart, ids) && Known(byEnd, ids)
    ensures Marking(content, newStart, newEnd) == InsertComments(children, range, byStart, byEnd, ids, order)
    ensures var ps, pe := Restrict(byStart, range.start, range.end), Restrict(byEnd, range.start, range.end);
      (ps == map[] && pe == map[] ==> content == children && newStart == byStart && newEnd == byEnd) &&
      (ps != map[] || pe != map[] ==>
        Atoms(split) == Atoms(children) &&
        NoCutInside(ChildTexts(split), range.start, ps.Keys + pe.Keys) &&
        var m := Mark(split, range.start, ps, pe, ids, order);
        content == m.children && newStart == (byStart - ps.Keys) + m.starts && newEnd == (byEnd - pe.Keys) + m.ends)
    ensures Content(content) == Content(children)
    ensures SubIndex(newStart, byStart) && SubIndex(newEnd, byEnd)
    ensures forall l :: l in newStart && range.start <= l < range.end ==> range.start + |ParagraphText(children)| <= l
    ensures forall l :: l in newEnd && range.start <= l < range.end ==> range.start + |ParagraphText(children)| <= l
  {
    var ps, pe := Restrict(byStart, range.start, range.end), Restrict(byEnd, range.start, range.end);
    if ps == map[] && pe == map[] {
      content, newStart, newEnd, split := children, byStart, byEnd, children;
      return;
    }
    var locations := ps.Keys + pe.Keys;
    var parts := SplitParagraphChildren(children, locations, range.start);
    split := parts;
    var starts, ends;
    content, starts, ends := InsertMarkers(parts, range.start, ps, pe, ids, order);
    newStart, newEnd := (byStart - ps.Keys) + starts, (byEnd - pe.Keys) + ends;
    ParagraphOutcome(children, split, range, byStart, byEnd, ids, order);
  }

  /** What marking the split paragraph leaves: its content, and the offsets not handled. */
  lemma {:induction false} ParagraphOutcome(children: seq<Child>, split: seq<Child>, range: TextRange, byStart: Index, byEnd: Index,
                                            ids: map<Comment, int>, order: seq<Comment>)
    requires Known(byStart, ids) && Known(byEnd, ids)
    requires var ps, pe := Restrict(byStart, range.start, range.end), Restrict(byEnd, range.start, range.end);
      Atoms(split) == Atoms(children) && NoCutInside(ChildTexts(split), range.start, ps.Keys + pe.Keys)
    ensures var ps, pe := Restrict(byStart, range.start, range.end), Restrict(byEnd, range.start, range.end);
      var m := Mark(split, range.start, ps, pe, ids, order);
      Content(m.children) == Content(children) &&
      SubIndex((byStart - ps.Keys) + m.starts, byStart) && SubIndex((byEnd - pe.Keys) + m.ends, byEnd) &&
      (forall l :: l in m.starts ==> range.start + |ParagraphText(children)| <= l < range.end) &&
      (forall l :: l in m.ends ==> range.start + |ParagraphText(children)| <= l < range.end)
  {
    var ps, pe := Restrict(byStart, range.start, range.end), Restrict(byEnd, range.start, range.end);
    var m := Mark(split, range.start, ps, pe, ids, order);
    MarkKeepsContent(split, range.start, ps, pe, ids, order);
    MarkRemoves(split, range.start, ps, pe, ids, order);
    ParagraphTextAtoms(split);
    ParagraphTextAtoms(children);
    forall l | l in m.starts
      ensures range.start + |ParagraphText(children)| <= l < range.end
    {
      if l < range.start + |ParagraphText(children)| {
        BoundariesAreOffsets(split, range.start, ps.Keys + pe.Keys, l);
      }
    }
    forall l | l in m.ends
      ensures range.start + |ParagraphText(children)| <= l < range.end
    {
      if l < range.start + |ParagraphText(children)| {
        BoundariesAreOffsets(split, range.start, ps.Keys + pe.Keys, l);
      }
    }
  }

  // ---------------------------------------------------------------------
  // addCommentsToSourceDocument
  // ---------------------------------------------------------------------

  /** An element of the document body: a paragraph with its children, or anything else (a table, a section break). */
  datatype BodyObject = ParagraphObject(children: seq<Child>) | OtherObject(element: nat)

  /** How many of the extracted paragraphs are TEXT paragraphs. */
  function TextCount(ps: seq<ExtractedParagraph>): nat
    decreases |ps|
  {
    if ps == [] then 0 else TextCount(ps[..|ps| - 1]) + (if ps[|ps| - 1].ptype == ParagraphType.Text then 1 else 0)
  }

  /** The i-th extracted paragraph can be annotated: it is TEXT, the body has a paragraph at i, and a parsed paragraph is left for it. */
  predicate Annotatable(paragraphs: seq<ExtractedParagraph>, content: seq<BodyObject>, parsed: nat, i: int)
    requires 0 <= i < |paragraphs|
  {
    paragraphs[i].ptype == ParagraphType.Text ==>
      i < |content| && content[i].ParagraphObject? && TextCount(paragraphs[..i]) < parsed
  }

  predicate Aligned(paragraphs: seq<ExtractedParagraph>, content: seq<BodyObject>, parsed: nat)
  {
    AlignedBefore(paragraphs, content, parsed, |paragraphs|)
  }

  /** Every extracted paragraph before the i-th can be annotated. */
  predicate AlignedBefore(paragraphs: seq<ExtractedParagraph>, content: seq<BodyObject>, parsed: nat, i: int)
  {
    forall k :: 0 <= k < i && k < |paragraphs| ==> Annotatable(paragraphs, content, parsed, k)
  }

  /** The body `doc` is `content` with the TEXT paragraphs before the i-th annotated, and nothing else changed. */
  predicate Annotated(paragraphs: seq<ExtractedParagraph>, content: seq<BodyObject>, doc: seq<BodyObject>, i: int)
  {
    |doc| == |content| &&
    forall k :: 0 <= k < |content| ==>
      if k < i && k < |paragraphs| && paragraphs[k].ptype == ParagraphType.Text then
        doc[k].ParagraphObject? && content[k].ParagraphObject? && Content(doc[k].children) == Content(content[k].children)
      else doc[k] == content[k]
  }

  /** A paragraph that is not TEXT is passed over. */
  lemma {:induction false} SkipStep(paragraphs: seq<ExtractedParagraph>, content: seq<BodyObject>, doc: seq<BodyObject>, i: int)
    requires 0 <= i < |paragraphs| && paragraphs[i].ptype != ParagraphType.Text
    requires Annotated(paragraphs, content, doc, i)
    ensures Annotated(paragraphs, content, doc, i + 1)
  {
    forall k | 0 <= k < |content|
      ensures
        if k < i + 1 && k < |paragraphs| && paragraphs[k].ptype == ParagraphType.Text then
          doc[k].ParagraphObject? && content[k].ParagraphObject? && Content(doc[k].children) == Content(content[k].children)
        else doc[k] == content[k]
    {
      assert k == i ==> paragraphs[k].ptype != ParagraphType.Text;
    }
  }

  /** A TEXT paragraph replaced by its annotated children. */
  lemma {:induction false} AnnotateStep(paragraphs: seq<ExtractedParagraph>, content: seq<BodyObject>, doc: seq<BodyObject>, i: int,
                                        children: seq<Child>)
    requires 0 <= i < |paragraphs| && paragraphs[i].ptype == ParagraphType.Text
    requires Annotated(paragraphs, content, doc, i) && i < |doc| && doc[i].ParagraphObject?
    requires Content(children) == Content(doc[i].children)
    ensures Annotated(paragraphs, content, doc[i := ParagraphObject(children)], i + 1)
  {
    var next := doc[i := ParagraphObject(children)];
    forall k | 0 <= k < |content|
      ensures
        if k < i + 1 && k < |paragraphs| && paragraphs[k].ptype == ParagraphType.Text then
          next[k].ParagraphObject? && content[k].ParagraphObject? && Content(next[k].children) == Content(content[k].children)
        else next[k] == content[k]
    {
      if k != i {
        assert next[k] == doc[k];
      }
    }
  }

  /** Entries taken from an index whose comments have ids have ids too. */
  lemma {:induction false} SubIndexKnown(m2: Index, m1: Index, ids: map<Comment, int>)
    requires SubIndex(m2, m1) && Known(m1, ids)
    ensures Known(m2, ids)
  {
    forall l, c | l in m2 && c in m2[l]
      ensures c in ids
    {
      assert m2[l] == m1[l];
    }
  }

  /**
   * `report.getStory().getChildrenAtLevel(Paragraph.class)`: the parsed
   * story's paragraph nodes in document order, or the query's exception.
   */
  function StoryParagraphs(r: Report): Result<seq<StoryTree.Node>>
  {
    StoryTree.ChildrenAtLevel(r.story, StoryTree.ParagraphLevel)
  }

  /** How many parsed paragraphs the TEXT paragraphs can be paired with: none when the query fails. */
  function ParsedCount(parsed: Result<seq<StoryTree.Node>>): nat
  {
    if parsed.Ok? then |parsed.value| else 0
  }

  /**
   * For a valid story the paragraph query succeeds: it yields the story's
   * paragraph nodes whose ranges intersect the story's range, in document
   * order.
   */
  lemma ValidStoryParagraphs(r: Report)
    requires r.story.Story? && StoryTree.ValidNode(r.story)
    ensures StoryParagraphs(r) ==
      Ok(StoryTree.FilterIntersecting(StoryTree.Descendants(r.story, StoryTree.ParagraphLevel), StoryTree.RangeOf(r.story)))
    ensures ParsedCount(StoryParagraphs(r)) == |StoryParagraphs(r).value|
  {
    StoryTree.ValidLevels(r.story);
    StoryTree.QueryBelow(r.story, StoryTree.ParagraphLevel, StoryTree.RangeOf(r.story));
  }

  /**
   * The loop of addCommentsToSourceDocument from the i-th extracted
   * paragraph on, with `p` parsed paragraphs used, the body `doc` and the
   * indexes as the earlier turns left them. Each turn first makes its
   * progress report, which `cancels(i)` cancels; a TEXT paragraph then
   * needs a body element at its index (IndexOutOfBounds), which must be a
   * paragraph (ClassCast), the story's paragraph query and a parsed
   * paragraph left (IndexOutOfBounds); it is then replaced by its marked
   * children and the shrunken indexes carry on.
   */
  function TranscribeFrom(paragraphs: seq<ExtractedParagraph>, parsed: Result<seq<StoryTree.Node>>, ids: map<Comment, int>,
                          order: seq<Comment>, cancels: nat -> bool,
                          i: nat, p: nat, doc: seq<BodyObject>, byStart: Index, byEnd: Index): Result<seq<BodyObject>>
    requires i <= |paragraphs|
    decreases |paragraphs| - i
  {
    if i == |paragraphs| then Ok(doc)
    else if cancels(i) then Err(TaskCanceled)
    else if paragraphs[i].ptype != ParagraphType.Text then
      TranscribeFrom(paragraphs, parsed, ids, order, cancels, i + 1, p, doc, byStart, byEnd)
    else if i >= |doc| then Err(IndexOutOfBounds)
    else if !doc[i].ParagraphObject? then Err(ClassCast)
    else if parsed.Err? then Err(parsed.error)
    else if p >= |parsed.value| then Err(IndexOutOfBounds)
    else
      var m := InsertComments(doc[i].children, StoryTree.RangeOf(parsed.value[p]), byStart, byEnd, ids, order);
      TranscribeFrom(paragraphs, parsed, ids, order, cancels, i + 1, p + 1, doc[i := ParagraphObject(m.children)], m.starts, m.ends)
  }

  /**
   * What addCommentsToSourceDocument makes of the body `content`: the ids
   * of extractComments, both indexes built from them, then the loop over
   * the story's paragraphs.
   */
  function Transcribe(r: Report, paragraphs: seq<ExtractedParagraph>, content: seq<BodyObject>, order: seq<Comment>,
                      cancels: nat -> bool): Result<seq<BodyObject>>
  {
    if !Comparable(ReportComments(r)) then Err(ClassCast)
    else
      var ids := CommentIdsOf(r);
      TranscribeFrom(paragraphs, StoryParagraphs(r), ids, order, cancels, 0, 0, content,
                     CommentsByStartIndex(ids.Keys), CommentsByEndIndex(ids.Keys))
  }

  /**
   * addCommentsToSourceDocument without the comment texts: comment ids
   * from extractComments, then each TEXT paragraph, in order, paired with
   * the next of the report story's paragraphs and given the markers its
   * range calls for. Fails with ClassCast when the comments cannot be
   * sorted, and otherwise fails exactly when a progress report is
   * cancelled or some TEXT paragraph has no body paragraph at its index or
   * no parsed paragraph left. On success only TEXT paragraphs change, and
   * only by markers.
   */
  method AddCommentsToSourceDocument(r: Report, paragraphs: seq<ExtractedParagraph>, content: seq<BodyObject>,
                                     order: seq<Comment>, cancels: nat -> bool)
      returns (res: Result<seq<BodyObject>>)
    ensures res == Transcribe(r, paragraphs, content, order, cancels)
    ensures !Comparable(ReportComments(r)) ==> res == Err(ClassCast)
    ensures Comparable(ReportComments(r)) ==>
      (res.Ok? <==> Uncanceled(cancels, |paragraphs|) && Aligned(paragraphs, content, ParsedCount(StoryParagraphs(r))))
    ensures res.Err? ==>
      res.error in {ClassCast, IndexOutOfBounds, TaskCanceled} || (StoryParagraphs(r).Err? && res.error == StoryParagraphs(r).error)
    ensures res.Ok? ==> |res.value| == |content|
    ensures res.Ok? ==> forall k :: 0 <= k < |content| ==>
      if k < |paragraphs| && paragraphs[k].ptype == ParagraphType.Text then
        res.value[k].ParagraphObject? && content[k].ParagraphObject? &&
        Content(res.value[k].children) == Content(content[k].children)
      else res.value[k] == content[k]
  {
    var extracted := ExtractComments(r);
    if extracted.Err? {
      return Err(extracted.error);
    }
    var ids := extracted.value;
    var byStart, byEnd := CommentsByStartIndex(ids.Keys), CommentsByEndIndex(ids.Keys);
    var parsed := StoryParagraphs(r);
    ghost var count := ParsedCount(parsed);
    ghost var total := Transcribe(r, paragraphs, content, order, cancels);
    var doc := content;
    var p := 0;
    for i := 0 to |paragraphs|
      invariant TranscribeFrom(paragraphs, parsed, ids, order, cancels, i, p, doc, byStart, byEnd) == total
      invariant Known(byStart, ids) && Known(byEnd, ids)
      invariant p == TextCount(paragraphs[..i])
      invariant Uncanceled(cancels, i)
      invariant AlignedBefore(paragraphs, content, count, i)
      invariant Annotated(paragraphs, content, doc, i)
    {
      if cancels(i) {
        return Err(TaskCanceled);
      }
      TextCountStep(paragraphs, i);
      if paragraphs[i].ptype != ParagraphType.Text {
        SkipStep(paragraphs, content, doc, i);
      } else {
        if i >= |doc| {
          assert !Annotatable(paragraphs, content, count, i);
          return Err(IndexOutOfBounds);
        }
        if !doc[i].ParagraphObject? {
          assert !Annotatable(paragraphs, content, count, i);
          return Err(ClassCast);
        }
        if parsed.Err? {
          assert !Annotatable(paragraphs, content, count, i);
          return Err(parsed.error);
        }
        if p >= |parsed.value| {
          assert !Annotatable(paragraphs, content, count, i);
          return Err(IndexOutOfBounds);
        }
        var children, s, e, split := InsertCommentsIntoParagraph(doc[i].children, StoryTree.RangeOf(parsed.value[p]), byStart, byEnd, ids, order);
        SubIndexKnown(s, byStart, ids);
        SubIndexKnown(e, byEnd, ids);
        AnnotateStep(paragraphs, content, doc, i, children);
        doc := doc[i := ParagraphObject(children)];
        byStart, byEnd := s, e;
        p := p + 1;
      }
    }
    res := Ok(doc);
  }

  lemma {:induction false} TextCountStep(ps: seq<ExtractedParagraph>, i: int)
    requires 0 <= i < |ps|
    ensures TextCount(ps[..i + 1]) == TextCount(ps[..i]) + (if ps[i].ptype == ParagraphType.Text then 1 else 0)
  {
    assert ps[..i + 1][..i] == ps[..i];
  }
}
