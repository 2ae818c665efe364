/**
 * Splitting a docx paragraph so that no comment boundary falls inside a
 * run or a text element (DocXReportTranscriber's splitString, splitText,
 * splitRun and splitParagraphChildren). Offsets count characters of the
 * story's text; a paragraph's runs carry its text, in order.
 */
module CommentSplitting {
  import opened Wrappers

  /** A child of a run: a text element, or any other element (tab, break, drawing), kept opaque. */
  datatype Item = Text(value: string) | NonText(element: nat)

  /**
   * A child of a paragraph: a run with its (opaque, shared) properties and
   * its children, one of the three markers the transcriber adds for a
   * comment, or any other element.
   */
  datatype Child =
    | Run(properties: nat, items: seq<Item>)
    | Other(element: nat)
    | CommentStart(id: int)
    | CommentEnd(id: int)
    | CommentReference(id: int)

  /** What a paragraph holds, one leaf at a time: a letter or another element of a run, with the run's properties, or a child outside runs. */
  datatype Atom = Letter(properties: nat, letter: char) | Element(properties: nat, item: Item) | Outside(child: Child)

  function ItemText(item: Item): string
  {
    if item.Text? then item.value else ""
  }

  /** `extractText` of a run: its text elements' strings, in order. */
  function ItemsText(items: seq<Item>): string
    decreases |items|
  {
    if items == [] then "" else ItemText(items[0]) + ItemsText(items[1..])
  }

  /** The text a child contributes to its paragraph: a run's text, nothing for any other child. */
  function ChildText(c: Child): string
  {
    if c.Run? then ItemsText(c.items) else ""
  }

  function ChildTexts(cs: seq<Child>): seq<string>
  {
    seq(|cs|, k requires 0 <= k < |cs| => ChildText(cs[k]))
  }

  function Concat(texts: seq<string>): string
    decreases |texts|
  {
    if texts == [] then "" else texts[0] + Concat(texts[1..])
  }

  /** `extractText` of a paragraph: its runs' text, in order. */
  function ParagraphText(cs: seq<Child>): string
  {
    Concat(ChildTexts(cs))
  }

  predicate SortedStrictly(xs: seq<int>)
  {
    forall i, j :: 0 <= i < j < |xs| ==> xs[i] < xs[j]
  }

  /** Cut offsets in ascending order, all in [lo, hi). */
  predicate Cuts(cuts: seq<int>, lo: int, hi: int)
  {
    SortedStrictly(cuts) && forall j :: 0 <= j < |cuts| ==> lo <= cuts[j] < hi
  }

  /** `subSet(lo, true, hi, false)` of a partition set, iterated in ascending order (as a TreeSet iterates). */
  function Within(locations: set<int>, lo: int, hi: int): seq<int>
    decreases hi - lo
  {
    if hi <= lo then []
    else (if lo in locations then [lo] else []) + Within(locations, lo + 1, hi)
  }

  lemma {:induction false} WithinSpec(locations: set<int>, lo: int, hi: int)
    ensures Cuts(Within(locations, lo, hi), lo, hi)
    ensures forall l :: l in Within(locations, lo, hi) <==> l in locations && lo <= l < hi
    decreases hi - lo
  {
    if lo < hi {
      WithinSpec(locations, lo + 1, hi);
      var rest := Within(locations, lo + 1, hi);
      var w := Within(locations, lo, hi);
      if lo in locations {
        assert w == [lo] + rest;
        forall i, j | 0 <= i < j < |w|
          ensures w[i] < w[j]
        {
          assert w[j] == rest[j - 1];
          if i > 0 {
            assert w[i] == rest[i - 1];
          }
        }
      } else {
        assert w == rest;
      }
    }
  }

  /**
   * The pieces of `s` (which starts at offset `start`) from offset `pos` on,
   * cut at each of `cuts`; the cuts are ascending offsets within the rest of
   * `s` (`Cuts`), and the walk stops at the first one that is not.
   */
  function Pieces(s: string, start: int, cuts: seq<int>, pos: int): seq<string>
    requires start <= pos <= start + |s|
    decreases |cuts|
  {
    if cuts == [] || !(pos <= cuts[0] <= start + |s|) then [s[pos - start..]]
    else [s[pos - start..cuts[0] - start]] + Pieces(s, start, cuts[1..], cuts[0])
  }

  /** The strings `splitString` cuts a text element's string into, for a string that starts at `start`. */
  function SplitPieces(original: string, locations: set<int>, start: int): seq<string>
  {
    Pieces(original, start, Within(locations, start, start + |original|), start)
  }

  /** No location lies strictly between `lo` and `hi`. */
  predicate NoCutIn(locations: set<int>, lo: int, hi: int)
  {
    forall l :: l in locations && lo < l ==> hi <= l
  }

  /** Laid end to end from `offset`, none of `texts` has a location strictly inside it. */
  predicate NoCutInside(texts: seq<string>, offset: int, locations: set<int>)
    decreases |texts|
  {
    texts == [] ||
    (NoCutIn(locations, offset, offset + |texts[0]|) && NoCutInside(texts[1..], offset + |texts[0]|, locations))
  }

  lemma {:induction false} ConcatAppend(a: seq<string>, b: seq<string>)
    ensures Concat(a + b) == Concat(a) + Concat(b)
    decreases |a|
  {
    if a != [] {
      assert (a + b)[1..] == a[1..] + b;
      ConcatAppend(a[1..], b);
    } else {
      assert a + b == b;
    }
  }

  lemma {:induction false} ConcatSnoc(a: seq<string>, last: string)
    ensures Concat(a + [last]) == Concat(a) + last
  {
    ConcatAppend(a, [last]);
    assert [last][1..] == [];
  }

  lemma {:induction false} NoCutAppend(a: seq<string>, b: seq<string>, offset: int, locations: set<int>)
    ensures NoCutInside(a + b, offset, locations) <==>
      NoCutInside(a, offset, locations) && NoCutInside(b, offset + |Concat(a)|, locations)
    decreases |a|
  {
    if a != [] {
      assert (a + b)[1..] == a[1..] + b;
      NoCutAppend(a[1..], b, offset + |a[0]|, locations);
    } else {
      assert a + b == b;
    }
  }

  lemma {:induction false} PiecesSpec(s: string, start: int, cuts: seq<int>, pos: int)
    requires start <= pos <= start + |s| && Cuts(cuts, pos, start + |s|)
    ensures Concat(Pieces(s, start, cuts, pos)) == s[pos - start..]
    ensures |Pieces(s, start, cuts, pos)| == |cuts| + 1
    decreases |cuts|
  {
    if cuts != [] {
      PiecesSpec(s, start, cuts[1..], cuts[0]);
      var rest := Pieces(s, start, cuts[1..], cuts[0]);
      assert ([s[pos - start..cuts[0] - start]] + rest)[1..] == rest;
      assert s[pos - start..cuts[0] - start] + s[cuts[0] - start..] == s[pos - start..];
    }
  }

  /** When every location strictly inside the rest of `s` is a cut, no piece has a location strictly inside it. */
  lemma {:induction false} PiecesNoCut(s: string, start: int, cuts: seq<int>, pos: int, locations: set<int>)
    requires start <= pos <= start + |s| && Cuts(cuts, pos, start + |s|)
    requires forall l :: l in locations && pos < l < start + |s| ==> l in cuts
    ensures NoCutInside(Pieces(s, start, cuts, pos), pos, locations)
    decreases |cuts|
  {
    var ps := Pieces(s, start, cuts, pos);
    if cuts == [] {
      assert ps[1..] == [];
    } else {
      var c := cuts[0];
      forall l | l in locations && c < l < start + |s|
        ensures l in cuts[1..]
      {
        var j :| 0 <= j < |cuts| && cuts[j] == l;
        assert j != 0;
        assert cuts[1..][j - 1] == l;
      }
      PiecesNoCut(s, start, cuts[1..], c, locations);
      assert ps[1..] == Pieces(s, start, cuts[1..], c);
      assert |ps[0]| == c - pos;
    }
  }

  /** splitString's pieces put back together are the string, and there is one more piece than there are locations inside it. */
  lemma {:induction false} SplitPiecesText(original: string, locations: set<int>, start: int)
    ensures Concat(SplitPieces(original, locations, start)) == original
    ensures |SplitPieces(original, locations, start)| == |Within(locations, start, start + |original|)| + 1
  {
    WithinSpec(locations, start, start + |original|);
    PiecesSpec(original, start, Within(locations, start, start + |original|), start);
  }

  /** splitString leaves a string whole exactly when no location lies in [start, start + |original|). */
  lemma {:induction false} SplitPiecesSingle(original: string, locations: set<int>, start: int)
    ensures |SplitPieces(original, locations, start)| == 1 <==> NoCutIn(locations, start - 1, start + |original|)
  {
    var cuts := Within(locations, start, start + |original|);
    WithinSpec(locations, start, start + |original|);
    PiecesSpec(original, start, cuts, start);
    if |cuts| == 0 {
      forall l | l in locations && start - 1 < l
        ensures start + |original| <= l
      {
        assert l !in cuts;
      }
    } else {
      assert cuts[0] in cuts;
    }
  }

  /** A single piece is the string itself. */
  lemma {:induction false} SinglePiece(original: string, locations: set<int>, start: int)
    ensures |SplitPieces(original, locations, start)| == 1 ==> SplitPieces(original, locations, start) == [original]
  {
    var ps := SplitPieces(original, locations, start);
    if |ps| == 1 {
      SplitPiecesText(original, locations, start);
      assert ps[1..] == [];
      assert ps == [ps[0]];
    }
  }

  /** A location at the string's own start leaves an empty first piece. */
  lemma {:induction false} SplitPiecesEmptyFirst(original: string, locations: set<int>, start: int)
    ensures |SplitPieces(original, locations, start)| >= 1
    ensures start in locations && original != [] ==> SplitPieces(original, locations, start)[0] == []
  {
    var cuts := Within(locations, start, start + |original|);
    SplitPiecesText(original, locations, start);
    if start in locations && original != [] {
      WithinSpec(locations, start, start + |original|);
      assert start in cuts;
      assert cuts[0] == start;
    }
  }

  /** No location lies strictly inside any of splitString's pieces. */
  lemma {:induction false} SplitPiecesNoCut(original: string, locations: set<int>, start: int)
    ensures NoCutInside(SplitPieces(original, locations, start), start, locations)
  {
    WithinSpec(locations, start, start + |original|);
    PiecesNoCut(original, start, Within(locations, start, start + |original|), start, locations);
  }

  function TextItems(pieces: seq<string>): seq<Item>
  {
    seq(|pieces|, k requires 0 <= k < |pieces| => Text(pieces[k]))
  }

  lemma {:induction false} TextItemsText(pieces: seq<string>)
    ensures ItemsText(TextItems(pieces)) == Concat(pieces)
    decreases |pieces|
  {
    if pieces != [] {
      assert TextItems(pieces)[1..] == TextItems(pieces[1..]);
      TextItemsText(pieces[1..]);
    }
  }

  lemma {:induction false} ItemsTextAppend(a: seq<Item>, b: seq<Item>)
    ensures ItemsText(a + b) == ItemsText(a) + ItemsText(b)
    decreases |a|
  {
    if a != [] {
      assert (a + b)[1..] == a[1..] + b;
      ItemsTextAppend(a[1..], b);
    } else {
      assert a + b == b;
    }
  }

  /**
   * splitText: a text element whose string needs no cut comes back as it
   * is; otherwise there is one new text element per piece.
   */
  method SplitText(text: string, locations: set<int>, start: int) returns (split: seq<Item>)
    ensures split == TextItems(SplitPieces(text, locations, start))
  {
    var pieces := SplitString(text, locations, start);
    if |pieces| == 1 {
      SinglePiece(text, locations, start);
      split := [Text(text)];
      assert split == TextItems([text]);
    } else {
      split := TextItems(pieces);
    }
  }

  /** splitString, for a string that starts at offset `start`: the locations inside it, in ascending order, cut it. */
  method SplitString(original: string, locations: set<int>, start: int) returns (pieces: seq<string>)
    ensures pieces == SplitPieces(original, locations, start)
  {
    var rest := Within(locations, start, start + |original|);
    WithinSpec(locations, start, start + |original|);
    pieces := [];
    var pos := 0;
    while rest != []
      invariant 0 <= pos <= |original| && Cuts(rest, start + pos, start + |original|)
      invariant pieces + Pieces(original, start, rest, start + pos) == SplitPieces(original, locations, start)
      decreases |rest|
    {
      var localLoc := rest[0] - start;
      PiecesCut(original, start, rest, start + pos);
      Associative(pieces, [original[pos..localLoc]], Pieces(original, start, rest[1..], rest[0]));
      pieces := pieces + [original[pos..localLoc]];
      pos := localLoc;
      rest := rest[1..];
    }
    pieces := pieces + [original[pos..]];
  }

  /** The first cut closes the first piece; the rest of the cuts cut the rest. */
  lemma {:induction false} PiecesCut(s: string, start: int, cuts: seq<int>, pos: int)
    requires start <= pos <= start + |s| && Cuts(cuts, pos, start + |s|) && cuts != []
    ensures Pieces(s, start, cuts, pos) == [s[pos - start..cuts[0] - start]] + Pieces(s, start, cuts[1..], cuts[0])
    ensures Cuts(cuts[1..], cuts[0], start + |s|)
  {
    assert cuts[0] < start + |s|;
    forall j | 0 <= j < |cuts[1..]|
      ensures cuts[0] <= cuts[1..][j] < start + |s|
    {
      assert cuts[1..][j] == cuts[j + 1];
    }
  }

  /** The partitions of a run being split, as one list per new run. */
  function Flatten(groups: seq<seq<Item>>): seq<Item>
    decreases |groups|
  {
    if groups == [] then [] else groups[0] + Flatten(groups[1..])
  }

  function GroupTexts(groups: seq<seq<Item>>): seq<string>
  {
    seq(|groups|, k requires 0 <= k < |groups| => ItemsText(groups[k]))
  }

  /** Add an element to the current (last) partition. */
  function Push(groups: seq<seq<Item>>, x: Item): seq<seq<Item>>
    requires |groups| >= 1
  {
    groups[..|groups| - 1] + [groups[|groups| - 1] + [x]]
  }

  /** splitRun's inner loop: each piece joins the current partition, which is then closed by starting a new, empty one. */
  function ClosePieces(groups: seq<seq<Item>>, pieces: seq<string>): (r: seq<seq<Item>>)
    requires |groups| >= 1
    ensures |r| >= 1
    decreases |pieces|
  {
    if pieces == [] then groups else ClosePieces(Push(groups, Text(pieces[0])) + [[]], pieces[1..])
  }

  lemma {:induction false} FlattenAppend(a: seq<seq<Item>>, b: seq<seq<Item>>)
    ensures Flatten(a + b) == Flatten(a) + Flatten(b)
    decreases |a|
  {
    if a != [] {
      assert (a + b)[1..] == a[1..] + b;
      FlattenAppend(a[1..], b);
    } else {
      assert a + b == b;
    }
  }

  lemma {:induction false} GroupsText(groups: seq<seq<Item>>)
    ensures Concat(GroupTexts(groups)) == ItemsText(Flatten(groups))
    decreases |groups|
  {
    if groups != [] {
      assert GroupTexts(groups)[1..] == GroupTexts(groups[1..]);
      GroupsText(groups[1..]);
      ItemsTextAppend(groups[0], Flatten(groups[1..]));
    }
  }

  lemma {:induction false} PushFlatten(groups: seq<seq<Item>>, x: Item)
    requires |groups| >= 1
    ensures Flatten(Push(groups, x)) == Flatten(groups) + [x]
  {
    var n := |groups|;
    var init, last := groups[..n - 1], groups[n - 1];
    assert groups == init + [last];
    FlattenAppend(init, [last]);
    FlattenAppend(init, [last + [x]]);
    assert [last][1..] == [] && [last + [x]][1..] == [];
  }

  lemma {:induction false} PushTexts(groups: seq<seq<Item>>, x: Item)
    requires |groups| >= 1
    ensures GroupTexts(Push(groups, x)) ==
      GroupTexts(groups)[..|groups| - 1] + [ItemsText(groups[|groups| - 1]) + ItemText(x)]
  {
    var n := |groups|;
    var pushed := Push(groups, x);
    ItemsTextAppend(groups[n - 1], [x]);
    assert [x][1..] == [];
    assert ItemsText([x]) == ItemText(x);
    var g := GroupTexts(pushed);
    var h := GroupTexts(groups)[..n - 1] + [ItemsText(groups[n - 1]) + ItemText(x)];
    assert |g| == n == |h|;
    forall k | 0 <= k < n
      ensures g[k] == h[k]
    {
      if k < n - 1 {
        assert pushed[k] == groups[k];
        assert h[k] == GroupTexts(groups)[k];
      } else {
        assert pushed[k] == groups[n - 1] + [x];
      }
    }
  }

  /**
   * Adding text to the last of some texts keeps them free of locations,
   * when the added text has none strictly inside it and the last text is
   * empty if its end is itself a location.
   */
  lemma {:induction false} ExtendLast(a: seq<string>, last: string, t: string, start: int, locations: set<int>)
    requires NoCutInside(a + [last], start, locations)
    requires var cur := start + |Concat(a)| + |last|;
      (cur in locations ==> last == []) && NoCutIn(locations, cur, cur + |t|)
    ensures NoCutInside(a + [last + t], start, locations)
  {
    NoCutAppend(a, [last], start, locations);
    NoCutAppend(a, [last + t], start, locations);
    assert [last][1..] == [] && [last + t][1..] == [];
  }

  lemma {:induction false} LastGroup(groups: seq<seq<Item>>)
    requires |groups| >= 1
    ensures var g := GroupTexts(groups); var n := |groups|;
      g == g[..n - 1] + [g[n - 1]] && g[n - 1] == ItemsText(groups[n - 1]) &&
      |Concat(g[..n - 1])| + |g[n - 1]| == |ItemsText(Flatten(groups))|
  {
    var n := |groups|;
    var g := GroupTexts(groups);
    assert g == g[..n - 1] + [g[n - 1]];
    GroupsText(groups);
    ConcatSnoc(g[..n - 1], g[n - 1]);
  }

  /**
   * Adding text to the current partition keeps every partition free of
   * locations, when the text has none strictly inside it and the current
   * partition has no text if its end is itself a location.
   */
  lemma {:induction false} PushTextStep(groups: seq<seq<Item>>, t: string, start: int, locations: set<int>)
    requires |groups| >= 1 && NoCutInside(GroupTexts(groups), start, locations)
    requires var cur := start + |ItemsText(Flatten(groups))|;
      (cur in locations ==> ItemsText(groups[|groups| - 1]) == []) && NoCutIn(locations, cur, cur + |t|)
    ensures NoCutInside(GroupTexts(Push(groups, Text(t))), start, locations)
  {
    var n := |groups|;
    var a, last := GroupTexts(groups)[..n - 1], GroupTexts(groups)[n - 1];
    LastGroup(groups);
    ExtendLast(a, last, t, start, locations);
    PushTexts(groups, Text(t));
  }

  /** Starting a new, empty partition keeps every partition free of locations. */
  lemma {:induction false} NewGroupStep(groups: seq<seq<Item>>, start: int, locations: set<int>)
    requires NoCutInside(GroupTexts(groups), start, locations)
    ensures NoCutInside(GroupTexts(groups + [[]]), start, locations)
    ensures Flatten(groups + [[]]) == Flatten(groups)
  {
    assert GroupTexts(groups + [[]]) == GroupTexts(groups) + [""];
    NoCutAppend(GroupTexts(groups), [""], start, locations);
    assert [""][1..] == [];
    FlattenAppend(groups, [[]]);
    assert Flatten([[]]) == [];
  }

  /** The piece at index `j` has no location strictly inside it, at its own offset. */
  lemma {:induction false} PieceFree(pieces: seq<string>, offset: int, locations: set<int>, j: int)
    requires NoCutInside(pieces, offset, locations) && 0 <= j < |pieces|
    ensures var o := offset + |Concat(pieces[..j])|; NoCutIn(locations, o, o + |pieces[j]|)
  {
    assert pieces == pieces[..j] + pieces[j..];
    NoCutAppend(pieces[..j], pieces[j..], offset, locations);
  }

  lemma {:induction false} AppendTextItems(prefix: seq<Item>, pieces: seq<string>)
    ensures ItemsText(prefix + TextItems(pieces)) == ItemsText(prefix) + Concat(pieces)
  {
    ItemsTextAppend(prefix, TextItems(pieces));
    TextItemsText(pieces);
  }

  /** One turn of splitRun's inner loop: the piece at index `j` joins the current partition, and a new partition starts. */
  lemma {:induction false} PieceStep(groups: seq<seq<Item>>, prefix: seq<Item>, pieces: seq<string>, j: int,
                                     start: int, cur: int, locations: set<int>)
    requires 0 <= j < |pieces| && |groups| >= 1
    requires NoCutInside(GroupTexts(groups), start, locations) && NoCutInside(pieces, cur, locations)
    requires Flatten(groups) == prefix + TextItems(pieces[..j]) && cur == start + |ItemsText(prefix)|
    requires start + |ItemsText(Flatten(groups))| in locations ==> ItemsText(groups[|groups| - 1]) == []
    ensures NoCutInside(GroupTexts(Push(groups, Text(pieces[j])) + [[]]), start, locations)
    ensures Flatten(Push(groups, Text(pieces[j])) + [[]]) == prefix + TextItems(pieces[..j + 1])
  {
    AppendTextItems(prefix, pieces[..j]);
    PieceFree(pieces, cur, locations, j);
    PushTextStep(groups, pieces[j], start, locations);
    PushFlatten(groups, Text(pieces[j]));
    NewGroupStep(Push(groups, Text(pieces[j])), start, locations);
    assert TextItems(pieces[..j + 1]) == TextItems(pieces[..j]) + [Text(pieces[j])];
  }

  lemma {:induction false} ClosePiecesSuffix(pieces: seq<string>, j: int, groups: seq<seq<Item>>, next: seq<seq<Item>>)
    requires 0 <= j < |pieces| && |groups| >= 1
    requires next == Push(groups, Text(pieces[j])) + [[]]
    ensures ClosePieces(groups, pieces[j..]) == ClosePieces(next, pieces[j + 1..])
  {
    Suffixes(pieces, j);
  }

  /**
   * The inner loop of splitRun: each piece goes to the current partition,
   * which is then closed by starting a new one.
   */
  method PushPieces(groups0: seq<seq<Item>>, pieces: seq<string>, cur: int, start: int, locations: set<int>)
    returns (groups: seq<seq<Item>>)
    requires |groups0| >= 1 && NoCutInside(GroupTexts(groups0), start, locations) && pieces != []
    requires cur == start + |ItemsText(Flatten(groups0))|
    requires (cur in locations ==> ItemsText(groups0[|groups0| - 1]) == []) && NoCutInside(pieces, cur, locations)
    ensures groups == ClosePieces(groups0, pieces)
    ensures |groups| >= 1 && groups[|groups| - 1] == []
    ensures Flatten(groups) == Flatten(groups0) + TextItems(pieces)
    ensures NoCutInside(GroupTexts(groups), start, locations)
  {
    groups := groups0;
    assert TextItems(pieces[..0]) == [];
    assert pieces[0..] == pieces;
    for j := 0 to |pieces|
      invariant |groups| >= 1
      invariant ClosePieces(groups, pieces[j..]) == ClosePieces(groups0, pieces)
      invariant Flatten(groups) == Flatten(groups0) + TextItems(pieces[..j])
      invariant NoCutInside(GroupTexts(groups), start, locations)
      invariant j == 0 ==> groups == groups0
      invariant j > 0 ==> groups[|groups| - 1] == []
    {
      PieceStep(groups, Flatten(groups0), pieces, j, start, cur, locations);
      ghost var before := groups;
      groups := Push(groups, Text(pieces[j])) + [[]];
      ClosePiecesSuffix(pieces, j, before, groups);
    }
    assert pieces[..|pieces|] == pieces && pieces[|pieces|..] == [];
  }

  /** A string, one letter at a time, each with its run's properties. */
  function Letters(properties: nat, s: string): seq<Atom>
  {
    seq(|s|, k requires 0 <= k < |s| => Letter(properties, s[k]))
  }

  function ItemAtoms(properties: nat, item: Item): seq<Atom>
  {
    if item.Text? then Letters(properties, item.value) else [Element(properties, item)]
  }

  function ItemsAtoms(properties: nat, items: seq<Item>): seq<Atom>
    decreases |items|
  {
    if items == [] then [] else ItemAtoms(properties, items[0]) + ItemsAtoms(properties, items[1..])
  }

  function ChildAtoms(c: Child): seq<Atom>
  {
    if c.Run? then ItemsAtoms(c.properties, c.items) else [Outside(c)]
  }

  /**
   * A paragraph's leaves in order: the letters and other elements of its
   * runs, each with its run's properties, and the children outside runs.
   * Splitting changes where runs and text elements begin and end, never
   * this sequence.
   */
  function Atoms(cs: seq<Child>): seq<Atom>
    decreases |cs|
  {
    if cs == [] then [] else ChildAtoms(cs[0]) + Atoms(cs[1..])
  }

  function MakeRuns(properties: nat, groups: seq<seq<Item>>): seq<Child>
  {
    seq(|groups|, k requires 0 <= k < |groups| => Run(properties, groups[k]))
  }

  lemma {:induction false} ItemsAtomsAppend(properties: nat, a: seq<Item>, b: seq<Item>)
    ensures ItemsAtoms(properties, a + b) == ItemsAtoms(properties, a) + ItemsAtoms(properties, b)
    decreases |a|
  {
    if a != [] {
      assert (a + b)[1..] == a[1..] + b;
      ItemsAtomsAppend(properties, a[1..], b);
    } else {
      assert a + b == b;
    }
  }

  lemma {:induction false} AtomsAppend(a: seq<Child>, b: seq<Child>)
    ensures Atoms(a + b) == Atoms(a) + Atoms(b)
    decreases |a|
  {
    if a != [] {
      assert (a + b)[1..] == a[1..] + b;
      AtomsAppend(a[1..], b);
    } else {
      assert a + b == b;
    }
  }

  /** The letters of text elements holding the pieces are the letters of the pieces put together. */
  lemma {:induction false} TextItemsAtoms(properties: nat, pieces: seq<string>)
    ensures ItemsAtoms(properties, TextItems(pieces)) == Letters(properties, Concat(pieces))
    decreases |pieces|
  {
    if pieces != [] {
      assert TextItems(pieces)[1..] == TextItems(pieces[1..]);
      TextItemsAtoms(properties, pieces[1..]);
      assert Letters(properties, pieces[0] + Concat(pieces[1..])) ==
        Letters(properties, pieces[0]) + Letters(properties, Concat(pieces[1..]));
    }
  }

  lemma {:induction false} SnocAtoms(properties: nat, prefix: seq<Item>, item: Item)
    ensures ItemsAtoms(properties, prefix + [item]) == ItemsAtoms(properties, prefix) + ItemAtoms(properties, item)
  {
    ItemsAtomsAppend(properties, prefix, [item]);
    assert [item][1..] == [];
  }

  /** Text elements that hold a text element's pieces have its letters. */
  lemma {:induction false} PiecesAtoms(properties: nat, prefix: seq<Item>, pieces: seq<string>, item: Item)
    requires item.Text? && Concat(pieces) == item.value
    ensures ItemsAtoms(properties, prefix + TextItems(pieces)) == ItemsAtoms(properties, prefix) + ItemAtoms(properties, item)
  {
    ItemsAtomsAppend(properties, prefix, TextItems(pieces));
    TextItemsAtoms(properties, pieces);
  }

  lemma {:induction false} ItemsAtomsSuffix(properties: nat, items: seq<Item>, i: int)
    requires 0 <= i < |items|
    ensures ItemsAtoms(properties, items[i..]) == ItemAtoms(properties, items[i]) + ItemsAtoms(properties, items[i + 1..])
  {
    assert items[i..][0] == items[i] && items[i..][1..] == items[i + 1..];
  }

  /** Moving element i from the rest of the run onto the partitions keeps the letters. */
  lemma {:induction false} TurnAtoms(properties: nat, done0: seq<Item>, done: seq<Item>, items: seq<Item>, i: int)
    requires 0 <= i < |items|
    requires ItemsAtoms(properties, done) == ItemsAtoms(properties, done0) + ItemAtoms(properties, items[i])
    ensures ItemsAtoms(properties, done) + ItemsAtoms(properties, items[i + 1..]) == ItemsAtoms(properties, done0) + ItemsAtoms(properties, items[i..])
  {
    ItemsAtomsSuffix(properties, items, i);
    Associative(ItemsAtoms(properties, done0), ItemAtoms(properties, items[i]), ItemsAtoms(properties, items[i + 1..]));
  }

  lemma {:induction false} MakeRunsAtoms(properties: nat, groups: seq<seq<Item>>)
    ensures Atoms(MakeRuns(properties, groups)) == ItemsAtoms(properties, Flatten(groups))
    decreases |groups|
  {
    if groups != [] {
      assert MakeRuns(properties, groups)[1..] == MakeRuns(properties, groups[1..]);
      MakeRunsAtoms(properties, groups[1..]);
      ItemsAtomsAppend(properties, groups[0], Flatten(groups[1..]));
    }
  }

  /** The text atoms spell: their letters, in order. */
  function AtomsText(atoms: seq<Atom>): string
    decreases |atoms|
  {
    if atoms == [] then "" else (if atoms[0].Letter? then [atoms[0].letter] else "") + AtomsText(atoms[1..])
  }

  lemma {:induction false} AtomsTextAppend(a: seq<Atom>, b: seq<Atom>)
    ensures AtomsText(a + b) == AtomsText(a) + AtomsText(b)
    decreases |a|
  {
    if a != [] {
      assert (a + b)[0] == a[0] && (a + b)[1..] == a[1..] + b;
      AtomsTextAppend(a[1..], b);
    } else {
      assert a + b == b;
    }
  }

  lemma {:induction false} LettersText(properties: nat, s: string)
    ensures AtomsText(Letters(properties, s)) == s
    decreases |s|
  {
    if s != [] {
      assert Letters(properties, s)[1..] == Letters(properties, s[1..]);
      LettersText(properties, s[1..]);
    }
  }

  /** A run's text is what its atoms spell. */
  lemma {:induction false} ItemsTextAtoms(properties: nat, items: seq<Item>)
    ensures AtomsText(ItemsAtoms(properties, items)) == ItemsText(items)
    decreases |items|
  {
    if items != [] {
      ItemsTextAtoms(properties, items[1..]);
      AtomsTextAppend(ItemAtoms(properties, items[0]), ItemsAtoms(properties, items[1..]));
      if items[0].Text? {
        LettersText(properties, items[0].value);
      } else {
        assert [Element(properties, items[0])][1..] == [];
      }
    }
  }

  /** A paragraph's text is what its atoms spell. */
  lemma {:induction false} ParagraphTextAtoms(cs: seq<Child>)
    ensures AtomsText(Atoms(cs)) == ParagraphText(cs)
    decreases |cs|
  {
    if cs != [] {
      ParagraphTextAtoms(cs[1..]);
      assert ChildTexts(cs)[1..] == ChildTexts(cs[1..]);
      AtomsTextAppend(ChildAtoms(cs[0]), Atoms(cs[1..]));
      if cs[0].Run? {
        ItemsTextAtoms(cs[0].properties, cs[0].items);
      } else {
        assert [Outside(cs[0])][1..] == [];
      }
    }
  }

  lemma {:induction false} NonTextTexts(groups: seq<seq<Item>>, item: Item)
    requires |groups| >= 1 && !item.Text?
    ensures GroupTexts(Push(groups, item)) == GroupTexts(groups)
  {
    var n := |groups|;
    var g := GroupTexts(groups);
    PushTexts(groups, item);
    assert g == g[..n - 1] + [g[n - 1]];
    assert g[n - 1] + ItemText(item) == g[n - 1];
  }

  /** splitRun meets an element that is not text: it joins the current partition. */
  lemma {:induction false} NonTextStep(properties: nat, groups: seq<seq<Item>>, item: Item)
    requires |groups| >= 1 && !item.Text?
    ensures GroupTexts(Push(groups, item)) == GroupTexts(groups)
    ensures ItemsAtoms(properties, Flatten(Push(groups, item))) == ItemsAtoms(properties, Flatten(groups)) + ItemAtoms(properties, item)
    ensures ItemsText(Flatten(Push(groups, item))) == ItemsText(Flatten(groups))
    ensures ItemsText(Push(groups, item)[|groups| - 1]) == ItemsText(groups[|groups| - 1])
  {
    var n := |groups|;
    NonTextTexts(groups, item);
    ItemsTextAppend(groups[n - 1], [item]);
    assert [item][1..] == [];
    PushFlatten(groups, item);
    ItemsTextAppend(Flatten(groups), [item]);
    SnocAtoms(properties, Flatten(groups), item);
  }

  /** splitRun meets a text element that needs no cut and does not end on a location: it joins the current partition whole. */
  lemma {:induction false} UnsplitStep(properties: nat, groups: seq<seq<Item>>, cur: int, item: Item, start: int, locations: set<int>)
    requires |groups| >= 1 && item.Text? && NoCutInside(GroupTexts(groups), start, locations)
    requires cur == start + |ItemsText(Flatten(groups))|
    requires (cur in locations ==> ItemsText(groups[|groups| - 1]) == []) && |SplitPieces(item.value, locations, cur)| == 1
    ensures ItemsAtoms(properties, Flatten(Push(groups, item))) == ItemsAtoms(properties, Flatten(groups)) + ItemAtoms(properties, item)
    ensures |ItemsText(Flatten(Push(groups, item)))| == |ItemsText(Flatten(groups))| + |item.value|
    ensures NoCutInside(GroupTexts(Push(groups, item)), start, locations)
  {
    SplitPiecesSingle(item.value, locations, cur);
    PushTextStep(groups, item.value, start, locations);
    PushFlatten(groups, item);
    ItemsTextAppend(Flatten(groups), [item]);
    assert [item][1..] == [];
    SnocAtoms(properties, Flatten(groups), item);
  }

  /**
   * One turn of splitRun's loop over the run's elements, the element
   * starting at `location`: an element that is not text joins the current
   * partition, and so does a text element that needs no cut and does not end
   * on a location; any other text element's pieces each close a partition.
   */
  function StepGroups(groups: seq<seq<Item>>, item: Item, location: int, locations: set<int>): (r: seq<seq<Item>>)
    requires |groups| >= 1
    ensures |r| >= 1
  {
    if !item.Text? then Push(groups, item)
    else
      var pieces := SplitPieces(item.value, locations, location);
      if |pieces| == 1 && location + |item.value| !in locations then Push(groups, item)
      else ClosePieces(groups, pieces)
  }

  /** The partitions splitRun builds from `groups` on, for the elements `items` starting at `location`. */
  function RunGroups(items: seq<Item>, groups: seq<seq<Item>>, location: int, locations: set<int>): (r: seq<seq<Item>>)
    requires |groups| >= 1
    decreases |items|
  {
    if items == [] then groups
    else RunGroups(items[1..], StepGroups(groups, items[0], location, locations), location + |ItemText(items[0])|, locations)
  }

  /** The runs splitRun returns for a run starting at `start`: one per partition, each with the run's properties. */
  function RunParts(run: Child, locations: set<int>, start: int): seq<Child>
    requires run.Run?
  {
    MakeRuns(run.properties, RunGroups(run.items, [[]], start, locations))
  }

  /** What splitParagraphChildren makes of one child at `position`: a run is split, any other child is kept. */
  function ChildParts(child: Child, locations: set<int>, position: int): seq<Child>
  {
    if child.Run? then RunParts(child, locations, position) else [child]
  }

  /** The children splitParagraphChildren returns, the first starting at `position`; only runs move the offset on. */
  function ParagraphParts(children: seq<Child>, locations: set<int>, position: int): seq<Child>
    decreases |children|
  {
    if children == [] then []
    else ChildParts(children[0], locations, position) + ParagraphParts(children[1..], locations, position + |ChildText(children[0])|)
  }

  lemma {:induction false} RunGroupsSuffix(items: seq<Item>, i: int, groups: seq<seq<Item>>, location: int,
                                           next: seq<seq<Item>>, nextLocation: int, locations: set<int>)
    requires 0 <= i < |items| && |groups| >= 1
    requires next == StepGroups(groups, items[i], location, locations) && nextLocation == location + |ItemText(items[i])|
    ensures RunGroups(items[i..], groups, location, locations) == RunGroups(items[i + 1..], next, nextLocation, locations)
  {
    Suffixes(items, i);
  }

  lemma {:induction false} ParagraphPartsSuffix(result0: seq<Child>, children: seq<Child>, i: int, locations: set<int>, position0: int,
                                                result: seq<Child>, position: int)
    requires 0 <= i < |children|
    requires result == result0 + ChildParts(children[i], locations, position0) && position == position0 + |ChildText(children[i])|
    ensures result0 + ParagraphParts(children[i..], locations, position0) == result + ParagraphParts(children[i + 1..], locations, position)
  {
    Suffixes(children, i);
    ghost var head := ChildParts(children[i], locations, position0);
    ghost var tail := ParagraphParts(children[i + 1..], locations, position);
    ParagraphPartsFront(children[i..], children[i], children[i + 1..], locations, position0, position);
    Associative(result0, head, tail);
  }

  /** The parts of children whose first is `h` and whose others are `t`. */
  lemma ParagraphPartsFront(cs: seq<Child>, h: Child, t: seq<Child>, locations: set<int>, position: int, next: int)
    requires cs != [] && h == cs[0] && t == cs[1..] && next == position + |ChildText(h)|
    ensures ParagraphParts(cs, locations, position) == ChildParts(h, locations, position) + ParagraphParts(t, locations, next)
  {
  }

  /** splitRun meets a text element it cuts, or one ending on a location: each piece closes a partition. */
  method SplitStep(properties: nat, groups0: seq<seq<Item>>, cur: int, item: Item, start: int, locations: set<int>) returns (groups: seq<seq<Item>>)
    requires |groups0| >= 1 && item.Text? && NoCutInside(GroupTexts(groups0), start, locations)
    requires cur == start + |ItemsText(Flatten(groups0))|
    requires cur in locations ==> ItemsText(groups0[|groups0| - 1]) == []
    ensures groups == ClosePieces(groups0, SplitPieces(item.value, locations, cur))
    ensures ItemsAtoms(properties, Flatten(groups)) == ItemsAtoms(properties, Flatten(groups0)) + ItemAtoms(properties, item)
    ensures |ItemsText(Flatten(groups))| == |ItemsText(Flatten(groups0))| + |item.value|
    ensures |groups| >= 1 && groups[|groups| - 1] == []
    ensures NoCutInside(GroupTexts(groups), start, locations)
  {
    var pieces := SplitPieces(item.value, locations, cur);
    SplitPiecesNoCut(item.value, locations, cur);
    SplitPiecesEmptyFirst(item.value, locations, cur);
    groups := PushPieces(groups0, pieces, cur, start, locations);
    AppendTextItems(Flatten(groups0), pieces);
    SplitPiecesText(item.value, locations, cur);
    PiecesAtoms(properties, Flatten(groups0), pieces, item);
  }

  /**
   * One turn of splitRun's loop over the run's elements: the element goes
   * on the current partition or, cut into pieces, closes partitions, and
   * the location moves past its text.
   */
  method RunStep(properties: nat, groups0: seq<seq<Item>>, location0: int, item: Item, start: int, locations: set<int>)
      returns (groups: seq<seq<Item>>, location: int)
    requires |groups0| >= 1 && location0 == start + |ItemsText(Flatten(groups0))|
    requires NoCutInside(GroupTexts(groups0), start, locations)
    requires location0 in locations ==> ItemsText(groups0[|groups0| - 1]) == []
    ensures groups == StepGroups(groups0, item, location0, locations) && location == location0 + |ItemText(item)|
    ensures ItemsAtoms(properties, Flatten(groups)) == ItemsAtoms(properties, Flatten(groups0)) + ItemAtoms(properties, item)
    ensures |groups| >= 1 && location == start + |ItemsText(Flatten(groups))|
    ensures NoCutInside(GroupTexts(groups), start, locations)
    ensures location in locations ==> ItemsText(groups[|groups| - 1]) == []
  {
    if !item.Text? {
      NonTextStep(properties, groups0, item);
      groups := Push(groups0, item);
      location := location0;
    } else {
      groups := TextStep(properties, groups0, location0, item, start, locations);
      location := location0 + |item.value|;
    }
  }

  /** The text branch of a turn of splitRun's loop. */
  method TextStep(properties: nat, groups0: seq<seq<Item>>, location0: int, item: Item, start: int, locations: set<int>)
      returns (groups: seq<seq<Item>>)
    requires item.Text?
    requires |groups0| >= 1 && location0 == start + |ItemsText(Flatten(groups0))|
    requires NoCutInside(GroupTexts(groups0), start, locations)
    requires location0 in locations ==> ItemsText(groups0[|groups0| - 1]) == []
    ensures groups == StepGroups(groups0, item, location0, locations)
    ensures ItemsAtoms(properties, Flatten(groups)) == ItemsAtoms(properties, Flatten(groups0)) + ItemAtoms(properties, item)
    ensures |groups| >= 1 && location0 + |item.value| == start + |ItemsText(Flatten(groups))|
    ensures NoCutInside(GroupTexts(groups), start, locations)
    ensures location0 + |item.value| in locations ==> ItemsText(groups[|groups| - 1]) == []
  {
    var split := SplitText(item.value, locations, location0);
    ghost var pieces := SplitPieces(item.value, locations, location0);
    assert |split| == |pieces|;
    ghost var next := StepGroups(groups0, item, location0, locations);
    if |split| == 1 && location0 + |item.value| !in locations {
      assert next == Push(groups0, item);
      UnsplitStep(properties, groups0, location0, item, start, locations);
      groups := Push(groups0, item);
    } else {
      assert next == ClosePieces(groups0, pieces);
      groups := SplitStep(properties, groups0, location0, item, start, locations);
    }
  }

  /**
   * Turn i of splitRun's loop, stated against the rest of the fold: what
   * remains to be done from the new state is what remained from the old.
   */
  method RunTurn(properties: nat, groups0: seq<seq<Item>>, location0: int, items: seq<Item>, i: int, start: int, locations: set<int>)
      returns (groups: seq<seq<Item>>, location: int)
    requires 0 <= i < |items|
    requires |groups0| >= 1 && location0 == start + |ItemsText(Flatten(groups0))|
    requires NoCutInside(GroupTexts(groups0), start, locations)
    requires location0 in locations ==> ItemsText(groups0[|groups0| - 1]) == []
    ensures |groups| >= 1 && location == start + |ItemsText(Flatten(groups))|
    ensures RunGroups(items[i..], groups0, location0, locations) == RunGroups(items[i + 1..], groups, location, locations)
    ensures ItemsAtoms(properties, Flatten(groups)) + ItemsAtoms(properties, items[i + 1..])
         == ItemsAtoms(properties, Flatten(groups0)) + ItemsAtoms(properties, items[i..])
    ensures NoCutInside(GroupTexts(groups), start, locations)
    ensures location in locations ==> ItemsText(groups[|groups| - 1]) == []
  {
    groups, location := RunStep(properties, groups0, location0, items[i], start, locations);
    RunGroupsSuffix(items, i, groups0, location0, groups, location, locations);
    TurnAtoms(properties, Flatten(groups0), Flatten(groups), items, i);
  }

  /**
   * The loop of splitRun over the run's elements: the partitions, starting
   * from one empty partition at the run's offset.
   */
  method PartitionRun(run: Child, locations: set<int>, start: int) returns (groups: seq<seq<Item>>)
    requires run.Run?
    ensures groups == RunGroups(run.items, [[]], start, locations) && |groups| >= 1
    ensures ItemsAtoms(run.properties, Flatten(groups)) == ItemsAtoms(run.properties, run.items)
    ensures NoCutInside(GroupTexts(groups), start, locations)
  {
    var p := run.properties;
    groups := [[]];
    var location := start;
    assert GroupTexts(groups) == [""] && [""][1..] == [];
    assert Flatten(groups) == [] by {
      assert groups[1..] == [];
    }
    assert run.items[0..] == run.items;
    ghost var total := RunGroups(run.items, [[]], start, locations);
    for i := 0 to |run.items|
      invariant |groups| >= 1
      invariant RunGroups(run.items[i..], groups, location, locations) == total
      invariant ItemsAtoms(p, Flatten(groups)) + ItemsAtoms(p, run.items[i..]) == ItemsAtoms(p, run.items)
      invariant location == start + |ItemsText(Flatten(groups))|
      invariant NoCutInside(GroupTexts(groups), start, locations)
      invariant location in locations ==> ItemsText(groups[|groups| - 1]) == []
    {
      groups, location := RunTurn(p, groups, location, run.items, i, start, locations);
    }
    assert run.items[|run.items|..] == [];
  }

  /** "ab" starting at 0 needs no cut at {2}; "abcd" is cut into "ab" and "cd". */
  lemma SplitPiecesExamples()
    ensures SplitPieces("ab", {2}, 0) == ["ab"]
    ensures SplitPieces("abcd", {2}, 0) == ["ab", "cd"]
  {
    assert Within({2}, 2, 2) == [] && Within({2}, 1, 2) == [];
    assert Within({2}, 0, 2) == [];
    assert Within({2}, 4, 4) == [] && Within({2}, 3, 4) == [] && Within({2}, 2, 4) == [2] && Within({2}, 1, 4) == [2];
    assert Within({2}, 0, 4) == [2];
    assert [2][1..] == [];
    assert "abcd"[0..2] == "ab" && "abcd"[2..] == "cd";
  }

  /** The text element "ab" ends exactly on the cut at 2: it closes the open partition. */
  lemma BoundaryTextStep()
    ensures StepGroups([[]], Text("ab"), 0, {2}) == [[Text("ab")], []]
  {
    SplitPiecesExamples();
    var empty: seq<seq<Item>> := [[]];
    assert StepGroups(empty, Text("ab"), 0, {2}) == ClosePieces(empty, ["ab"]);
    assert empty[..0] == [] && empty[0] + [Text("ab")] == [Text("ab")];
    assert Push(empty, Text("ab")) == [[Text("ab")]];
    assert ["ab"][1..] == [];
  }

  /** "abcd" is cut at 2: one partition per piece, then an open empty one. */
  lemma CutTextStep()
    ensures StepGroups([[]], Text("abcd"), 0, {2}) == [[Text("ab")], [Text("cd")], []]
  {
    SplitPiecesExamples();
    var empty: seq<seq<Item>> := [[]];
    assert StepGroups(empty, Text("abcd"), 0, {2}) == ClosePieces(empty, ["ab", "cd"]);
    assert ["ab", "cd"][1..] == ["cd"] && ["cd"][1..] == [];
    assert empty[..0] == [] && empty[0] + [Text("ab")] == [Text("ab")];
    assert Push(empty, Text("ab")) + [[]] == [[Text("ab")], []];
    var half: seq<seq<Item>> := [[Text("ab")], []];
    assert half[..1] == [[Text("ab")]] && half[1] + [Text("cd")] == [Text("cd")];
    assert Push(half, Text("cd")) + [[]] == [[Text("ab")], [Text("cd")], []];
  }

  /**
   * A run split at offset 2, where its text element ends: the element
   * closes its partition, so the element after it starts a new run.
   */
  lemma RunPartsBoundaryExample()
    ensures RunParts(Run(7, [Text("ab"), NonText(3)]), {2}, 0) == [Run(7, [Text("ab")]), Run(7, [NonText(3)])]
  {
    BoundaryTextStep();
    var g1: seq<seq<Item>> := [[Text("ab")], []];
    assert StepGroups(g1, NonText(3), 2, {2}) == [[Text("ab")], [NonText(3)]] by {
      assert g1[..1] == [[Text("ab")]] && g1[1] + [NonText(3)] == [NonText(3)];
    }
    var items := [Text("ab"), NonText(3)];
    assert items[1..] == [NonText(3)] && items[1..][1..] == [];
  }

  /**
   * A run split at offset 2, inside its text element: two runs, one per
   * piece, and a final empty run after the last piece.
   */
  lemma RunPartsCutExample()
    ensures RunParts(Run(7, [Text("abcd")]), {2}, 0) == [Run(7, [Text("ab")]), Run(7, [Text("cd")]), Run(7, [])]
  {
    CutTextStep();
    var items := [Text("abcd")];
    assert items[1..] == [];
  }

  /**
   * splitRun: the new runs all carry the run's properties and together hold
   * exactly the run's letters and other elements, in order (so its text
   * too); and no location lies strictly inside any of them.
   */
  method SplitRun(run: Child, locations: set<int>, start: int) returns (runs: seq<Child>)
    requires run.Run?
    ensures runs == RunParts(run, locations, start)
    ensures runs != [] && forall k :: 0 <= k < |runs| ==> runs[k].Run? && runs[k].properties == run.properties
    ensures Atoms(runs) == ChildAtoms(run)
    ensures ParagraphText(runs) == ChildText(run)
    ensures NoCutInside(ChildTexts(runs), start, locations)
  {
    var groups := PartitionRun(run, locations, start);
    runs := MakeRuns(run.properties, groups);
    RunsOfGroups(run.properties, groups, run.items);
  }

  /** The runs built from splitRun's partitions. */
  lemma {:induction false} RunsOfGroups(properties: nat, groups: seq<seq<Item>>, items: seq<Item>)
    requires ItemsAtoms(properties, Flatten(groups)) == ItemsAtoms(properties, items)
    ensures Atoms(MakeRuns(properties, groups)) == ItemsAtoms(properties, items)
    ensures ParagraphText(MakeRuns(properties, groups)) == ItemsText(items)
    ensures ChildTexts(MakeRuns(properties, groups)) == GroupTexts(groups)
  {
    MakeRunsAtoms(properties, groups);
    assert ChildTexts(MakeRuns(properties, groups)) == GroupTexts(groups);
    ParagraphTextAtoms(MakeRuns(properties, groups));
    ItemsTextAtoms(properties, items);
  }

  lemma {:induction false} AtomsSuffix(cs: seq<Child>, i: int)
    requires 0 <= i < |cs|
    ensures Atoms(cs[i..]) == ChildAtoms(cs[i]) + Atoms(cs[i + 1..])
  {
    var r := cs[i..];
    assert r[0] == cs[i] && r[1..] == cs[i + 1..];
  }

  /** The atoms seen so far plus those still to come stay the paragraph's, once a child is replaced by what it became. */
  lemma {:induction false} AtomsStep(result: seq<Child>, added: seq<Child>, children: seq<Child>, i: int)
    requires 0 <= i < |children|
    requires Atoms(result) + Atoms(children[i..]) == Atoms(children)
    requires Atoms(added) == ChildAtoms(children[i])
    ensures Atoms(result + added) + Atoms(children[i + 1..]) == Atoms(children)
  {
    AtomsSuffix(children, i);
    AtomsAppend(result, added);
    Associative(Atoms(result), Atoms(added), Atoms(children[i + 1..]));
  }

  lemma Suffixes<T>(s: seq<T>, i: int)
    requires 0 <= i < |s|
    ensures s[..i] + s[i..] == s && s[i..][0] == s[i] && s[i..][1..] == s[i + 1..]
  {
  }

  lemma TailOfAppend<T>(a: seq<T>, b: seq<T>)
    requires a != []
    ensures (a + b)[0] == a[0] && (a + b)[1..] == a[1..] + b
  {
  }

  /** One turn of splitParagraphChildren: what the child became goes after what came before. */
  lemma {:induction false} ChildStep(result: seq<Child>, added: seq<Child>, text: string, start: int, position: int, locations: set<int>)
    requires position == start + |ParagraphText(result)|
    requires NoCutInside(ChildTexts(result), start, locations)
    requires NoCutInside(ChildTexts(added), position, locations)
    requires ParagraphText(added) == text
    ensures NoCutInside(ChildTexts(result + added), start, locations)
    ensures position + |text| == start + |ParagraphText(result + added)|
  {
    assert ChildTexts(result + added) == ChildTexts(result) + ChildTexts(added);
    ConcatAppend(ChildTexts(result), ChildTexts(added));
    NoCutAppend(ChildTexts(result), ChildTexts(added), start, locations);
  }

  lemma {:induction false} OtherChild(child: Child, offset: int, locations: set<int>)
    requires !child.Run?
    ensures NoCutInside(ChildTexts([child]), offset, locations)
    ensures ParagraphText([child]) == ChildText(child) && Atoms([child]) == ChildAtoms(child)
  {
    assert [child][1..] == [];
    var t := ChildTexts([child]);
    assert t == [""] && t[1..] == [];
    assert Concat(t) == "" + Concat([]);
  }

  /** One child of splitParagraphChildren: a run is split, any other child is kept as it is. */
  method SplitChild(child: Child, locations: set<int>, position: int) returns (added: seq<Child>)
    ensures added == ChildParts(child, locations, position)
    ensures Atoms(added) == ChildAtoms(child)
    ensures ParagraphText(added) == ChildText(child)
    ensures NoCutInside(ChildTexts(added), position, locations)
  {
    if child.Run? {
      added := SplitRun(child, locations, position);
    } else {
      added := [child];
      OtherChild(child, position, locations);
    }
  }

  /** One turn of splitParagraphChildren's loop: the child, split if it is a run, goes after what came before. */
  method ParagraphStep(result0: seq<Child>, position0: int, children: seq<Child>, i: int, start: int, locations: set<int>)
      returns (result: seq<Child>, position: int)
    requires 0 <= i < |children|
    requires Atoms(result0) + Atoms(children[i..]) == Atoms(children)
    requires position0 == start + |ParagraphText(result0)|
    requires NoCutInside(ChildTexts(result0), start, locations)
    ensures result0 + ParagraphParts(children[i..], locations, position0) == result + ParagraphParts(children[i + 1..], locations, position)
    ensures Atoms(result) + Atoms(children[i + 1..]) == Atoms(children)
    ensures position == start + |ParagraphText(result)|
    ensures NoCutInside(ChildTexts(result), start, locations)
  {
    var added := SplitChild(children[i], locations, position0);
    ChildStep(result0, added, ChildText(children[i]), start, position0, locations);
    AtomsStep(result0, added, children, i);
    result := result0 + added;
    position := position0 + |ChildText(children[i])|;
    ParagraphPartsSuffix(result0, children, i, locations, position0, result, position);
  }

  /**
   * splitParagraphChildren: the result holds exactly the paragraph's
   * letters, elements and other children, in order, with their runs'
   * properties; so the paragraph's text is unchanged; and no location lies
   * strictly inside any child.
   */
  method SplitParagraphChildren(children: seq<Child>, locations: set<int>, start: int) returns (result: seq<Child>)
    ensures result == ParagraphParts(children, locations, start)
    ensures Atoms(result) == Atoms(children)
    ensures ParagraphText(result) == ParagraphText(children)
    ensures NoCutInside(ChildTexts(result), start, locations)
  {
    result := [];
    var position := start;
    assert children[0..] == children;
    for i := 0 to |children|
      invariant result + ParagraphParts(children[i..], locations, position) == ParagraphParts(children, locations, start)
      invariant Atoms(result) + Atoms(children[i..]) == Atoms(children)
      invariant position == start + |ParagraphText(result)|
      invariant NoCutInside(ChildTexts(result), start, locations)
    {
      result, position := ParagraphStep(result, position, children, i, start, locations);
    }
    assert children[|children|..] == [];
    ParagraphTextAtoms(result);
    ParagraphTextAtoms(children);
  }
}
