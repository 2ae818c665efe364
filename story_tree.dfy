/**
 * The offset-addressed story tree: story -> chapter -> scene -> paragraph ->
 * sentence -> token (the node classes of the story package).
 * Nodes are immutable values; the parent pointers the constructors set are a
 * separate relation from child path to parent path (class ParentLinks).
 */
module StoryTree {
  import opened Wrappers
  import opened TextRanges
  import opened Characters

  datatype Level = StoryLevel | ChapterLevel | SceneLevel | ParagraphLevel | SentenceLevel | TokenLevel

  function Depth(l: Level): nat
  {
    match l
    case StoryLevel => 0
    case ChapterLevel => 1
    case SceneLevel => 2
    case ParagraphLevel => 3
    case SentenceLevel => 4
    case TokenLevel => 5
  }

  /** The level of a node's direct children (`getChildType`). */
  function ChildLevel(l: Level): (c: Level)
    requires l != TokenLevel
    ensures Depth(c) == Depth(l) + 1
  {
    match l
    case StoryLevel => ChapterLevel
    case ChapterLevel => SceneLevel
    case SceneLevel => ParagraphLevel
    case ParagraphLevel => SentenceLevel
    case SentenceLevel => TokenLevel
  }

  /** What a token stores besides its range (story/TokenImpl.java). */
  datatype TokenInfo = TokenInfo(
    posTag: string,
    wordStem: string,
    word: Option<string>,
    isWord: bool,
    allCaps: bool,
    bold: bool,
    italics: bool,
    underline: bool,
    quoted: bool)

  datatype Node =
    | Story(text: string, title: string, children: seq<Node>)
    | Chapter(range: TextRange, title: string, children: seq<Node>)
    | Scene(range: TextRange, children: seq<Node>)
    | Paragraph(range: TextRange, children: seq<Node>)
    | Sentence(range: TextRange, children: seq<Node>)
    | Token(range: TextRange, info: TokenInfo)

  function LevelOf(n: Node): Level
  {
    match n
    case Story(_, _, _) => StoryLevel
    case Chapter(_, _, _) => ChapterLevel
    case Scene(_, _) => SceneLevel
    case Paragraph(_, _) => ParagraphLevel
    case Sentence(_, _) => SentenceLevel
    case Token(_, _) => TokenLevel
  }

  /** `getRange`: the story always covers [0, length of its text). */
  function RangeOf(n: Node): TextRange
  {
    if n.Story? then TextRange(0, |n.text|) else n.range
  }

  function Children(n: Node): seq<Node>
  {
    if n.Token? then [] else n.children
  }

  function Ranges(ns: seq<Node>): (rs: seq<TextRange>)
    ensures |rs| == |ns| && forall i :: 0 <= i < |ns| ==> rs[i] == RangeOf(ns[i])
  {
    seq(|ns|, i requires 0 <= i < |ns| => RangeOf(ns[i]))
  }

  // ---------------------------------------------------------------------
  // Tiling: the check of validateChildren
  // ---------------------------------------------------------------------

  /**
   * Starting at `from`, each range starts where the previous one ended and the
   * last one ends at `to`; with no ranges, `from == to`.
   */
  predicate TilesFrom(from: int, to: int, rs: seq<TextRange>)
    decreases |rs|
  {
    if rs == [] then from == to else rs[0].start == from && TilesFrom(rs[0].end, to, rs[1..])
  }

  predicate Tiles(r: TextRange, rs: seq<TextRange>)
  {
    TilesFrom(r.start, r.end, rs)
  }

  /**
   * `validateChildren`: walks the children with a cursor that starts at the
   * node's start; `false` stands for the IllegalArgumentException it throws.
   */
  method ValidateChildren(range: TextRange, children: seq<Node>) returns (ok: bool)
    ensures ok == Tiles(range, Ranges(children))
  {
    var rs := Ranges(children);
    var position := range.start;
    var i := 0;
    while i < |children|
      invariant 0 <= i <= |children|
      invariant Tiles(range, rs) == TilesFrom(position, range.end, rs[i..])
    {
      assert rs[i..][0] == rs[i] && rs[i..][1..] == rs[i + 1..];
      var c := RangeOf(children[i]);
      if position != c.start {
        return false;
      }
      position := c.end;
      i := i + 1;
    }
    ok := range.end == position;
  }

  /**
   * Tiling spelled out: no children iff the range is empty; otherwise the first
   * child starts at the start, consecutive children meet, and the last ends at
   * the end. Gaps, overlaps, reordering and mismatched ends are all excluded.
   */
  lemma {:induction false} TilesIff(from: int, to: int, rs: seq<TextRange>)
    ensures rs == [] ==> (TilesFrom(from, to, rs) <==> from == to)
    ensures rs != [] ==> (TilesFrom(from, to, rs) <==>
      rs[0].start == from && rs[|rs| - 1].end == to && forall i :: 0 <= i < |rs| - 1 ==> rs[i].end == rs[i + 1].start)
    decreases |rs|
  {
    if rs != [] {
      TilesIff(rs[0].end, to, rs[1..]);
      var tail := rs[1..];
      if |rs| > 1 {
        if forall i :: 0 <= i < |rs| - 1 ==> rs[i].end == rs[i + 1].start {
          assert forall i :: 0 <= i < |tail| - 1 ==> tail[i].end == tail[i + 1].start by {
            forall i | 0 <= i < |tail| - 1 ensures tail[i].end == tail[i + 1].start {
              assert rs[i + 1].end == rs[i + 2].start;
            }
          }
        }
        if TilesFrom(from, to, rs) {
          forall i | 0 <= i < |rs| - 1 ensures rs[i].end == rs[i + 1].start {
            if i > 0 {
              assert tail[i - 1].end == tail[i].start;
            }
          }
        }
      }
    }
  }

  /** Sum of the lengths of a list of ranges. */
  function SumLengths(rs: seq<TextRange>): int
  {
    if rs == [] then 0 else Length(rs[0]) + SumLengths(rs[1..])
  }

  /**
   * Well-formed ranges that tile [from, to) lie inside it, come in order
   * without overlapping, and their lengths add up to its length.
   */
  lemma {:induction false} TilesContained(from: int, to: int, rs: seq<TextRange>)
    requires TilesFrom(from, to, rs)
    requires forall i :: 0 <= i < |rs| ==> rs[i].start <= rs[i].end
    ensures from <= to
    ensures forall i :: 0 <= i < |rs| ==> from <= rs[i].start && rs[i].end <= to
    ensures forall i, j :: 0 <= i < j < |rs| ==> rs[i].end <= rs[j].start
    ensures SumLengths(rs) == to - from
    decreases |rs|
  {
    if rs != [] {
      var tail := rs[1..];
      assert forall i :: 0 <= i < |tail| ==> tail[i] == rs[i + 1];
      TilesContained(rs[0].end, to, tail);
      forall i, j | 0 <= i < j < |rs| ensures rs[i].end <= rs[j].start {
        if i > 0 {
          assert tail[i - 1].end <= tail[j - 1].start;
        } else {
          assert rs[0].end <= tail[j - 1].start;
        }
      }
    }
  }

  /** A few concrete cases, mirroring the child-range checks of one story's sentences. */
  lemma {:induction false} TilingExamples()
    ensures Tiles(TextRange(0, 9), [TextRange(0, 4), TextRange(4, 9)])
    ensures !Tiles(TextRange(0, 9), [TextRange(4, 9), TextRange(0, 4)])
    ensures !Tiles(TextRange(0, 9), [TextRange(0, 4), TextRange(5, 9)])
    ensures !Tiles(TextRange(0, 9), [TextRange(0, 4), TextRange(3, 9)])
    ensures !Tiles(TextRange(0, 9), [TextRange(1, 4), TextRange(4, 9)])
    ensures !Tiles(TextRange(0, 9), [TextRange(0, 4), TextRange(4, 8)])
    ensures !Tiles(TextRange(1, 9), [TextRange(0, 4), TextRange(4, 9)])
    ensures !Tiles(TextRange(0, 8), [TextRange(0, 4), TextRange(4, 9)])
    ensures Tiles(TextRange(3, 3), []) && !Tiles(TextRange(3, 4), [])
  {
  }

  // ---------------------------------------------------------------------
  // Well-formed trees
  // ---------------------------------------------------------------------

  /**
   * What construction guarantees of every node: a well-formed range, children
   * of the next level down, and children whose ranges tile the node's range.
   */
  predicate ValidNode(n: Node)
    decreases n
  {
    WellFormed(RangeOf(n)) &&
    if n.Token? then true
    else
      Tiles(RangeOf(n), Ranges(n.children))
      && forall i :: 0 <= i < |n.children| ==>
        LevelOf(n.children[i]) == ChildLevel(LevelOf(n)) && ValidNode(n.children[i])
  }

  /** Every child of a valid node lies within the node's range. */
  lemma {:induction false} ChildContained(n: Node, i: nat)
    requires ValidNode(n) && i < |Children(n)|
    ensures ContainsRange(RangeOf(n), RangeOf(Children(n)[i]))
  {
    var rs := Ranges(n.children);
    assert forall k :: 0 <= k < |rs| ==> rs[k].start <= rs[k].end by {
      forall k | 0 <= k < |rs| ensures rs[k].start <= rs[k].end {
        assert ValidNode(n.children[k]);
      }
    }
    TilesContained(RangeOf(n).start, RangeOf(n).end, rs);
  }

  // ---------------------------------------------------------------------
  // Constructors
  // ---------------------------------------------------------------------

  /** `new StoryImpl(text, title, chapters)`: the chapters must tile [0, |text|). */
  function NewStory(text: string, title: string, chapters: seq<Node>): (res: Result<Node>)
    requires forall i :: 0 <= i < |chapters| ==> chapters[i].Chapter?
    ensures res.Ok? <==> Tiles(TextRange(0, |text|), Ranges(chapters))
    ensures res.Ok? ==> res.value == Story(text, title, chapters) && RangeOf(res.value) == TextRange(0, |text|)
    ensures res.Ok? && (forall i :: 0 <= i < |chapters| ==> ValidNode(chapters[i])) ==> ValidNode(res.value)
    ensures res.Err? ==> res.error == IllegalArgument
  {
    if Tiles(TextRange(0, |text|), Ranges(chapters)) then Ok(Story(text, title, chapters)) else Err(IllegalArgument)
  }

  /** `new ChapterImpl(range, scenes, title)`. */
  function NewChapter(range: TextRange, scenes: seq<Node>, title: string): (res: Result<Node>)
    requires WellFormed(range)
    requires forall i :: 0 <= i < |scenes| ==> scenes[i].Scene?
    ensures res.Ok? <==> Tiles(range, Ranges(scenes))
    ensures res.Ok? ==> res.value == Chapter(range, title, scenes)
    ensures res.Ok? && (forall i :: 0 <= i < |scenes| ==> ValidNode(scenes[i])) ==> ValidNode(res.value)
    ensures res.Err? ==> res.error == IllegalArgument
  {
    if Tiles(range, Ranges(scenes)) then Ok(Chapter(range, title, scenes)) else Err(IllegalArgument)
  }

  /** `new SceneImpl(range, paragraphs)`. */
  function NewScene(range: TextRange, paragraphs: seq<Node>): (res: Result<Node>)
    requires WellFormed(range)
    requires forall i :: 0 <= i < |paragraphs| ==> paragraphs[i].Paragraph?
    ensures res.Ok? <==> Tiles(range, Ranges(paragraphs))
    ensures res.Ok? ==> res.value == Scene(range, paragraphs)
    ensures res.Ok? && (forall i :: 0 <= i < |paragraphs| ==> ValidNode(paragraphs[i])) ==> ValidNode(res.value)
    ensures res.Err? ==> res.error == IllegalArgument
  {
    if Tiles(range, Ranges(paragraphs)) then Ok(Scene(range, paragraphs)) else Err(IllegalArgument)
  }

  /** `new ParagraphImpl(range, sentences)`. */
  function NewParagraph(range: TextRange, sentences: seq<Node>): (res: Result<Node>)
    requires WellFormed(range)
    requires forall i :: 0 <= i < |sentences| ==> sentences[i].Sentence?
    ensures res.Ok? <==> Tiles(range, Ranges(sentences))
    ensures res.Ok? ==> res.value == Paragraph(range, sentences)
    ensures res.Ok? && (forall i :: 0 <= i < |sentences| ==> ValidNode(sentences[i])) ==> ValidNode(res.value)
    ensures res.Err? ==> res.error == IllegalArgument
  {
    if Tiles(range, Ranges(sentences)) then Ok(Paragraph(range, sentences)) else Err(IllegalArgument)
  }

  /** `new SentenceImpl(range, tokens)`. */
  function NewSentence(range: TextRange, tokens: seq<Node>): (res: Result<Node>)
    requires WellFormed(range)
    requires forall i :: 0 <= i < |tokens| ==> tokens[i].Token?
    ensures res.Ok? <==> Tiles(range, Ranges(tokens))
    ensures res.Ok? ==> res.value == Sentence(range, tokens)
    ensures res.Ok? && (forall i :: 0 <= i < |tokens| ==> ValidNode(tokens[i])) ==> ValidNode(res.value)
    ensures res.Err? ==> res.error == IllegalArgument
  {
    if Tiles(range, Ranges(tokens)) then Ok(Sentence(range, tokens)) else Err(IllegalArgument)
  }

  /** `SentenceImpl.isFragment`: not implemented, always throws. */
  function IsFragment(s: Node): (res: Result<bool>)
    requires s.Sentence?
    ensures res == Err(UnsupportedOperation)
  {
    Err(UnsupportedOperation)
  }

  /** `SentenceImpl.isQuestion`: not implemented, always throws. */
  function IsQuestion(s: Node): (res: Result<bool>)
    requires s.Sentence?
    ensures res == Err(UnsupportedOperation)
  {
    Err(UnsupportedOperation)
  }

  // ---------------------------------------------------------------------
  // Tokens: word extraction and capitalisation
  // ---------------------------------------------------------------------

  /** Index of the first letter or digit, or |s| when there is none. */
  function FirstAlnum(s: string): (k: nat)
    ensures k <= |s|
  {
    if s == [] then 0 else if IsLetterOrDigit(s[0]) then 0 else 1 + FirstAlnum(s[1..])
  }

  /** One past the index of the last letter or digit, or 0 when there is none. */
  function LastAlnumEnd(s: string): (k: nat)
    ensures k <= |s|
  {
    if s == [] then 0 else if IsLetterOrDigit(s[|s| - 1]) then |s| else LastAlnumEnd(s[..|s| - 1])
  }

  /** `extractWord`: the text between the first and the last letter-or-digit, or null. */
  function ExtractWord(text: string): Option<string>
  {
    var a, b := FirstAlnum(text), LastAlnumEnd(text);
    if b > a then Some(text[a..b]) else None
  }

  predicate NoAlnumIn(s: string, lo: int, hi: int)
  {
    forall k :: 0 <= lo <= k < hi <= |s| ==> !IsLetterOrDigit(s[k])
  }

  lemma {:induction false} FirstAlnumSpec(s: string)
    ensures NoAlnumIn(s, 0, FirstAlnum(s))
    ensures FirstAlnum(s) < |s| ==> IsLetterOrDigit(s[FirstAlnum(s)])
  {
    if s != [] && !IsLetterOrDigit(s[0]) {
      FirstAlnumSpec(s[1..]);
      forall k | 0 <= k < FirstAlnum(s) ensures !IsLetterOrDigit(s[k]) {
        if k > 0 {
          assert s[k] == s[1..][k - 1];
        }
      }
    }
  }

  /** The first letter-or-digit is at k when none precedes k and k holds one (or is the end). */
  lemma {:induction false} FirstAlnumAt(s: string, k: nat)
    requires k <= |s| && NoAlnumIn(s, 0, k) && (k < |s| ==> IsLetterOrDigit(s[k]))
    ensures FirstAlnum(s) == k
  {
    FirstAlnumSpec(s);
  }

  lemma {:induction false} LastAlnumEndAt(s: string, k: nat)
    requires k <= |s| && NoAlnumIn(s, k, |s|) && (k > 0 ==> IsLetterOrDigit(s[k - 1]))
    ensures LastAlnumEnd(s) == k
  {
    LastAlnumEndSpec(s);
  }

  lemma {:induction false} LastAlnumEndSpec(s: string)
    ensures NoAlnumIn(s, LastAlnumEnd(s), |s|)
    ensures LastAlnumEnd(s) > 0 ==> IsLetterOrDigit(s[LastAlnumEnd(s) - 1])
  {
    if s != [] && !IsLetterOrDigit(s[|s| - 1]) {
      var init := s[..|s| - 1];
      LastAlnumEndSpec(init);
      forall k | LastAlnumEnd(s) <= k < |s| ensures !IsLetterOrDigit(s[k]) {
        if k < |s| - 1 {
          assert s[k] == init[k];
        }
      }
    }
  }

  /**
   * The word of a token: null iff the text has no letter or digit; otherwise
   * the substring that starts at the first and ends at the last letter or
   * digit, with none outside it.
   */
  lemma {:induction false} ExtractWordCharacterization(text: string)
    ensures ExtractWord(text).None? <==> NoAlnumIn(text, 0, |text|)
    ensures ExtractWord(text).Some? ==>
      exists a, b :: 0 <= a < b <= |text| && ExtractWord(text).value == text[a..b]
        && IsLetterOrDigit(text[a]) && IsLetterOrDigit(text[b - 1])
        && NoAlnumIn(text, 0, a) && NoAlnumIn(text, b, |text|)
  {
    FirstAlnumSpec(text);
    LastAlnumEndSpec(text);
    var a, b := FirstAlnum(text), LastAlnumEnd(text);
    if b > a {
      assert IsLetterOrDigit(text[a]);
    }
  }

  /**
   * The two scanning loops of `extractWord`, each stopping at the first
   * letter-or-digit found from its end.
   */
  method ExtractWordScan(text: string) returns (word: Option<string>)
    ensures word == ExtractWord(text)
  {
    FirstAlnumSpec(text);
    LastAlnumEndSpec(text);
    var wordStart := |text|;
    var i := 0;
    while i < |text|
      invariant 0 <= i <= |text|
      invariant NoAlnumIn(text, 0, i)
      invariant i <= FirstAlnum(text)
    {
      if IsLetterOrDigit(text[i]) {
        wordStart := i;
        break;
      }
      i := i + 1;
    }
    assert wordStart == FirstAlnum(text);
    var wordEnd := 0;
    var j := |text| - 1;
    while j >= 0
      invariant -1 <= j < |text|
      invariant NoAlnumIn(text, j + 1, |text|)
      invariant LastAlnumEnd(text) <= j + 1
    {
      if IsLetterOrDigit(text[j]) {
        wordEnd := j + 1;
        break;
      }
      j := j - 1;
    }
    assert wordEnd == LastAlnumEnd(text);
    if wordEnd > wordStart {
      word := Some(text[wordStart..wordEnd]);
    } else {
      word := None;
    }
  }

  /** `allCaps`: a word with no lower-case character and at least one letter. */
  predicate AllCapsWord(word: Option<string>)
  {
    word.Some?
    && (forall k :: 0 <= k < |word.value| ==> !IsLowerCase(word.value[k]))
    && (exists k :: 0 <= k < |word.value| && IsAlphabetic(word.value[k]))
  }

  /** `new TokenImpl(...)`: tag and stem are kept as passed; word, isWord and allCaps are derived from the text. */
  function NewToken(range: TextRange, text: string, posTag: string, wordStem: string,
                    bold: bool, italics: bool, underline: bool, quoted: bool): (t: Node)
    ensures t.Token? && t.range == range && t.info.posTag == posTag && t.info.wordStem == wordStem
    ensures t.info.word == ExtractWord(text)
    ensures t.info.isWord <==> t.info.word.Some?
    ensures t.info.allCaps <==> AllCapsWord(t.info.word)
    ensures t.info.bold == bold && t.info.italics == italics && t.info.underline == underline && t.info.quoted == quoted
  {
    var word := ExtractWord(text);
    Token(range, TokenInfo(posTag, wordStem, word, word.Some?, AllCapsWord(word), bold, italics, underline, quoted))
  }

  /** Leading and trailing quotes and punctuation are trimmed from a token's word. */
  lemma {:induction false} WordyExample()
    ensures ExtractWord("\"Wordy,\" ") == Some("Wordy")
  {
    var t := "\"Wordy,\" ";
    assert !IsLetterOrDigit(t[0]) && IsLetterOrDigit(t[1]);
    FirstAlnumAt(t, 1);
    assert IsLetterOrDigit(t[5]) && !IsLetterOrDigit(t[6]) && !IsLetterOrDigit(t[7]) && !IsLetterOrDigit(t[8]);
    LastAlnumEndAt(t, 6);
    assert t[1..6] == "Wordy";
  }

  /** ". " has no word, and "This " has the word "This", which is not all caps. */
  lemma {:induction false} SentenceEndExample()
    ensures ExtractWord(". ").None?
    ensures ExtractWord("This ") == Some("This") && !AllCapsWord(Some("This"))
    ensures AllCapsWord(Some("NASA")) && !AllCapsWord(Some("42"))
  {
    assert !IsLetterOrDigit(". "[0]) && !IsLetterOrDigit(". "[1]);
    FirstAlnumAt(". ", 2);
    LastAlnumEndAt(". ", 0);
    assert IsLetterOrDigit("This "[0]) && IsLetterOrDigit("This "[3]) && !IsLetterOrDigit("This "[4]);
    FirstAlnumAt("This ", 0);
    LastAlnumEndAt("This ", 4);
    assert "This "[0..4] == "This";
    assert !IsLowerCase("NASA"[0]) && IsAlphabetic("NASA"[0]);
    assert !IsAlphabetic("42"[0]) && !IsAlphabetic("42"[1]);
    assert IsLowerCase("This"[1]);
  }

  // ---------------------------------------------------------------------
  // Descendant queries
  // ---------------------------------------------------------------------

  /** Keeps, in order, the nodes whose range intersects `r`. */
  function FilterIntersecting(ns: seq<Node>, r: TextRange): seq<Node>
  {
    if ns == [] then []
    else (if Intersects(RangeOf(ns[0]), r) then [ns[0]] else []) + FilterIntersecting(ns[1..], r)
  }

  /**
   * `getChildrenAtLevelIntersectingRange`: filters the direct children when
   * they are at the requested level, and otherwise concatenates the children's
   * answers; a token always rejects the request.
   */
  function Query(n: Node, level: Level, r: TextRange): Result<seq<Node>>
    decreases n, |Children(n)| + 1
  {
    if n.Token? then Err(IllegalArgument)
    else if level == ChildLevel(LevelOf(n)) then Ok(FilterIntersecting(n.children, r))
    else QueryChildren(n, level, r, 0)
  }

  /** The `flatMap` over children i, i+1, ... of `Query`. */
  function QueryChildren(n: Node, level: Level, r: TextRange, i: nat): Result<seq<Node>>
    requires !n.Token? && i <= |n.children|
    decreases n, |n.children| - i
  {
    if i == |n.children| then Ok([])
    else
      match Query(n.children[i], level, r)
      case Err(e) => Err(e)
      case Ok(head) =>
        match QueryChildren(n, level, r, i + 1)
        case Err(e) => Err(e)
        case Ok(tail) => Ok(head + tail)
  }

  /** `getChildrenAtLevel`: the same query over the node's own range. */
  function ChildrenAtLevel(n: Node, level: Level): Result<seq<Node>>
  {
    Query(n, level, RangeOf(n))
  }

  /** Reference definition: all descendants at `level`, in document order. */
  function Descendants(n: Node, level: Level): seq<Node>
    decreases n, |Children(n)| + 1
  {
    DescendantsFrom(n, level, 0)
  }

  function DescendantsFrom(n: Node, level: Level, i: nat): seq<Node>
    requires i <= |Children(n)|
    decreases n, |Children(n)| - i
  {
    if i == |Children(n)| then []
    else
      var c := Children(n)[i];
      (if LevelOf(c) == level then [c] else Descendants(c, level)) + DescendantsFrom(n, level, i + 1)
  }

  lemma {:induction false} DescendantsFromSplit(n: Node, level: Level, i: nat)
    requires i < |Children(n)|
    ensures DescendantsFrom(n, level, i) ==
      (if LevelOf(Children(n)[i]) == level then [Children(n)[i]] else Descendants(Children(n)[i], level))
      + DescendantsFrom(n, level, i + 1)
  {
  }

  lemma {:induction false} FilterConcat(a: seq<Node>, b: seq<Node>, r: TextRange)
    ensures FilterIntersecting(a + b, r) == FilterIntersecting(a, r) + FilterIntersecting(b, r)
  {
    if a != [] {
      var head := if Intersects(RangeOf(a[0]), r) then [a[0]] else [];
      assert (a + b)[0] == a[0];
      assert (a + b)[1..] == a[1..] + b;
      assert FilterIntersecting(a + b, r) == head + FilterIntersecting(a[1..] + b, r);
      FilterConcat(a[1..], b, r);
      assert FilterIntersecting(a, r) == head + FilterIntersecting(a[1..], r);
    } else {
      assert a + b == b;
    }
  }

  lemma {:induction false} FilterKeeps(ns: seq<Node>, r: TextRange, d: Node)
    requires d in ns && Intersects(RangeOf(d), r)
    ensures d in FilterIntersecting(ns, r)
  {
    if ns[0] != d {
      FilterKeeps(ns[1..], r, d);
    }
  }

  /** When every child is at `level`, the descendants from child i on are those children. */
  lemma {:induction false} DescendantsOfDirectChildren(n: Node, level: Level, i: nat)
    requires !n.Token? && i <= |n.children|
    requires forall k :: i <= k < |n.children| ==> LevelOf(n.children[k]) == level
    ensures DescendantsFrom(n, level, i) == n.children[i..]
    decreases |n.children| - i
  {
    if i < |n.children| {
      DescendantsOfDirectChildren(n, level, i + 1);
      assert LevelOf(Children(n)[i]) == level;
      assert DescendantsFrom(n, level, i) == [n.children[i]] + DescendantsFrom(n, level, i + 1);
      assert n.children[i..] == [n.children[i]] + n.children[i + 1..];
    }
  }

  /** The level part of `ValidNode`: every child sits one level below its parent, all the way down. */
  predicate LevelsConsistent(n: Node)
    decreases n
  {
    n.Token? ||
    forall i :: 0 <= i < |n.children| ==>
      LevelOf(n.children[i]) == ChildLevel(LevelOf(n)) && LevelsConsistent(n.children[i])
  }

  lemma {:induction false} ValidLevels(n: Node)
    requires ValidNode(n)
    ensures LevelsConsistent(n)
    decreases n
  {
    if !n.Token? {
      forall i | 0 <= i < |n.children| ensures LevelsConsistent(n.children[i]) {
        ValidLevels(n.children[i]);
      }
    }
  }

  /**
   * Asked for a level strictly below the node, the query returns, in document
   * order, exactly the descendants at that level whose ranges intersect `r`.
   */
  lemma {:induction false} QueryBelow(n: Node, level: Level, r: TextRange)
    requires LevelsConsistent(n) && Depth(level) > Depth(LevelOf(n))
    ensures Query(n, level, r) == Ok(FilterIntersecting(Descendants(n, level), r))
    decreases n, |Children(n)| + 1
  {
    if level == ChildLevel(LevelOf(n)) {
      DescendantsOfDirectChildren(n, level, 0);
      assert n.children[0..] == n.children;
    } else {
      QueryChildrenBelow(n, level, r, 0);
    }
  }

  lemma {:induction false} QueryChildrenBelow(n: Node, level: Level, r: TextRange, i: nat)
    requires LevelsConsistent(n) && !n.Token? && i <= |n.children|
    requires Depth(level) > Depth(LevelOf(n)) + 1
    ensures QueryChildren(n, level, r, i) == Ok(FilterIntersecting(DescendantsFrom(n, level, i), r))
    decreases n, |n.children| - i
  {
    if i < |n.children| {
      var c := n.children[i];
      assert LevelsConsistent(c) && LevelOf(c) == ChildLevel(LevelOf(n));
      assert LevelOf(c) != level && Depth(level) > Depth(LevelOf(c));
      DescendantsFromSplit(n, level, i);
      QueryBelow(c, level, r);
      QueryChildrenBelow(n, level, r, i + 1);
      FilterConcat(Descendants(c, level), DescendantsFrom(n, level, i + 1), r);
    }
  }

  /**
   * Asked for a level at or above the node, the query fails with
   * IllegalArgumentException as soon as the descent reaches a token, and a
   * subtree without tokens answers with the empty list.
   */
  lemma {:induction false} QueryAtOrAbove(n: Node, level: Level, r: TextRange)
    requires LevelsConsistent(n) && Depth(level) <= Depth(LevelOf(n))
    ensures Query(n, level, r) ==
      if n.Token? || Descendants(n, TokenLevel) != [] then Err(IllegalArgument) else Ok([])
    decreases n, |Children(n)| + 1
  {
    if !n.Token? {
      forall k | 0 <= k < |n.children|
        ensures LevelsConsistent(n.children[k]) && Depth(level) <= Depth(LevelOf(n.children[k]))
      {
        assert LevelOf(n.children[k]) == ChildLevel(LevelOf(n));
      }
      QueryChildrenAtOrAbove(n, level, r, 0);
    }
  }

  lemma {:induction false} QueryChildrenAtOrAbove(n: Node, level: Level, r: TextRange, i: nat)
    requires !n.Token? && i <= |n.children|
    requires forall k :: i <= k < |n.children| ==>
      LevelsConsistent(n.children[k]) && Depth(level) <= Depth(LevelOf(n.children[k]))
    ensures QueryChildren(n, level, r, i) ==
      if DescendantsFrom(n, TokenLevel, i) != [] then Err(IllegalArgument) else Ok([])
    decreases n, |n.children| - i
  {
    if i < |n.children| {
      var c := n.children[i];
      var head := if c.Token? then [c] else Descendants(c, TokenLevel);
      QueryAtOrAbove(c, level, r);
      QueryChildrenAtOrAbove(n, level, r, i + 1);
      DescendantsFromSplit(n, TokenLevel, i);
      assert DescendantsFrom(n, TokenLevel, i) == head + DescendantsFrom(n, TokenLevel, i + 1);
    }
  }

  /** Descendants of a valid node lie within its range. */
  lemma {:induction false} DescendantsContained(n: Node, level: Level)
    requires ValidNode(n)
    ensures forall d :: d in Descendants(n, level) ==> ContainsRange(RangeOf(n), RangeOf(d))
    decreases n, |Children(n)| + 1
  {
    DescendantsFromContained(n, level, 0);
  }

  lemma {:induction false} DescendantsFromContained(n: Node, level: Level, i: nat)
    requires ValidNode(n) && i <= |Children(n)|
    ensures forall d :: d in DescendantsFrom(n, level, i) ==> ContainsRange(RangeOf(n), RangeOf(d))
    decreases n, |Children(n)| - i
  {
    if i < |Children(n)| {
      var c := Children(n)[i];
      ChildContained(n, i);
      assert ValidNode(c);
      DescendantsContained(c, level);
      DescendantsFromContained(n, level, i + 1);
      DescendantsFromSplit(n, level, i);
    }
  }

  /**
   * `getChildrenAtLevel` on a level below the node returns every non-empty
   * descendant at that level (an empty one is kept only when its start lies
   * inside the node's range).
   */
  lemma {:induction false} ChildrenAtLevelKeepsNonEmpty(n: Node, level: Level, d: Node)
    requires ValidNode(n) && Depth(level) > Depth(LevelOf(n))
    requires d in Descendants(n, level) && Length(RangeOf(d)) > 0
    ensures ChildrenAtLevel(n, level).Ok? && d in ChildrenAtLevel(n, level).value
  {
    ValidLevels(n);
    QueryBelow(n, level, RangeOf(n));
    DescendantsContained(n, level);
    DescendantsLevel(n, level);
    assert ValidNode(d);
    ContainedIntersects(RangeOf(n), RangeOf(d));
    IntersectsSymmetric(RangeOf(n), RangeOf(d));
    FilterKeeps(Descendants(n, level), RangeOf(n), d);
  }

  /** Descendants of a valid node are valid. */
  lemma {:induction false} DescendantsLevel(n: Node, level: Level)
    requires ValidNode(n)
    ensures forall d :: d in Descendants(n, level) ==> ValidNode(d)
    decreases n, |Children(n)| + 1
  {
    DescendantsFromLevel(n, level, 0);
  }

  lemma {:induction false} DescendantsFromLevel(n: Node, level: Level, i: nat)
    requires i <= |Children(n)|
    requires forall k :: i <= k < |Children(n)| ==> ValidNode(Children(n)[k])
    ensures forall d :: d in DescendantsFrom(n, level, i) ==> ValidNode(d)
    decreases n, |Children(n)| - i
  {
    if i < |Children(n)| {
      var c := Children(n)[i];
      DescendantsLevel(c, level);
      DescendantsFromLevel(n, level, i + 1);
      DescendantsFromSplit(n, level, i);
    }
  }

  // ---------------------------------------------------------------------
  // Addresses, parents and selections
  // ---------------------------------------------------------------------

  /** The node reached by following child indexes from `n`. */
  function NodeAt(n: Node, path: seq<nat>): Option<Node>
    decreases |path|
  {
    if path == [] then Some(n)
    else if path[0] < |Children(n)| then NodeAt(Children(n)[path[0]], path[1..])
    else None
  }

  lemma {:induction false} NodeAtSnoc(n: Node, path: seq<nat>, i: nat)
    ensures NodeAt(n, path + [i]) ==
      if NodeAt(n, path).Some? && i < |Children(NodeAt(n, path).value)|
      then Some(Children(NodeAt(n, path).value)[i]) else None
    decreases |path|
  {
    if path != [] {
      assert (path + [i])[1..] == path[1..] + [i];
      if path[0] < |Children(n)| {
        NodeAtSnoc(Children(n)[path[0]], path[1..], i);
      }
    }
  }

  lemma {:induction false} NodeAtParent(n: Node, path: seq<nat>)
    requires path != [] && NodeAt(n, path).Some?
    ensures NodeAt(n, path[..|path| - 1]).Some?
    ensures path[|path| - 1] < |Children(NodeAt(n, path[..|path| - 1]).value)|
    ensures NodeAt(n, path).value == Children(NodeAt(n, path[..|path| - 1]).value)[path[|path| - 1]]
  {
    var q, i := path[..|path| - 1], path[|path| - 1];
    assert path == q + [i];
    NodeAtSnoc(n, q, i);
  }

  lemma {:induction false} NodeAtValid(n: Node, path: seq<nat>)
    requires ValidNode(n) && NodeAt(n, path).Some?
    ensures ValidNode(NodeAt(n, path).value)
    decreases |path|
  {
    if path != [] {
      var c := Children(n)[path[0]];
      assert ValidNode(c);
      NodeAtValid(c, path[1..]);
    }
  }

  /** `getParent`: the parent of the node at a path is the node at the path without its last index. */
  function ParentOf(root: Node, path: seq<nat>): Option<seq<nat>>
  {
    if path != [] && NodeAt(root, path).Some? then Some(path[..|path| - 1]) else None
  }

  /** After construction each child's parent is the node that lists it, and the story has none. */
  lemma {:induction false} ParentOfChild(root: Node, path: seq<nat>, i: nat)
    requires NodeAt(root, path).Some? && i < |Children(NodeAt(root, path).value)|
    ensures ParentOf(root, path + [i]) == Some(path)
    ensures NodeAt(root, path + [i]) == Some(Children(NodeAt(root, path).value)[i])
    ensures ParentOf(root, []).None?
  {
    NodeAtSnoc(root, path, i);
    assert (path + [i])[..|path + [i]| - 1] == path;
  }

  /** Parent links added by the constructor loop of the node at `at` with `count` children. */
  function ChildLinks(at: seq<nat>, count: nat): map<seq<nat>, seq<nat>>
  {
    if count == 0 then map[] else ChildLinks(at, count - 1)[at + [count - 1] := at]
  }

  lemma {:induction false} ChildLinksSpec(at: seq<nat>, count: nat)
    ensures forall p :: p in ChildLinks(at, count) <==> exists i :: 0 <= i < count && p == at + [i]
    ensures forall i :: 0 <= i < count ==> at + [i] in ChildLinks(at, count) && ChildLinks(at, count)[at + [i]] == at
  {
    if count > 0 {
      ChildLinksSpec(at, count - 1);
    }
  }

  /**
   * The parent fields, as a map from a node's path to its parent's path
   * (`setParent`, called by every parental constructor for each child).
   */
  class ParentLinks {
    var parentOf: map<seq<nat>, seq<nat>>

    constructor ()
      ensures parentOf == map[]
    {
      parentOf := map[];
    }

    /** The `for (child : children) child.setParent(this)` loop of a constructor. */
    method AdoptChildren(at: seq<nat>, childCount: nat)
      modifies this
      ensures parentOf == old(parentOf) + ChildLinks(at, childCount)
    {
      var i := 0;
      while i < childCount
        invariant 0 <= i <= childCount
        invariant parentOf == old(parentOf) + ChildLinks(at, i)
      {
        parentOf := parentOf[at + [i] := at];
        i := i + 1;
      }
    }
  }

  /** The links one constructor loop records agree with the parent relation of the finished tree. */
  lemma {:induction false} ChildLinksAgreeWithParentOf(root: Node, at: seq<nat>, i: nat)
    requires NodeAt(root, at).Some? && i < |Children(NodeAt(root, at).value)|
    ensures at + [i] in ChildLinks(at, |Children(NodeAt(root, at).value)|)
    ensures Some(ChildLinks(at, |Children(NodeAt(root, at).value)|)[at + [i]]) == ParentOf(root, at + [i])
  {
    ChildLinksSpec(at, |Children(NodeAt(root, at).value)|);
    ParentOfChild(root, at, i);
  }

  /**
   * `getSelection(range)` on the node at `path`: every node below the story
   * checks that it contains the range and delegates to its parent; the story
   * takes the substring of its text without any check.
   */
  function SelectionAt(root: Node, path: seq<nat>, r: TextRange): Result<string>
    requires root.Story? && NodeAt(root, path).Some?
    decreases |path|
  {
    if path == [] then CoveredText(r, root.text)
    else if !ContainsRange(RangeOf(NodeAt(root, path).value), r) then Err(IllegalArgument)
    else
      NodeAtParent(root, path);
      SelectionAt(root, path[..|path| - 1], r)
  }

  /**
   * In a valid story the selection of a node is the story's text over the
   * range when the node contains the range, and IllegalArgumentException
   * otherwise; so `getText` of any node is the story substring over its range.
   */
  lemma {:induction false} SelectionIsStorySubstring(root: Node, path: seq<nat>, r: TextRange)
    requires root.Story? && ValidNode(root) && NodeAt(root, path).Some? && WellFormed(r)
    ensures ValidNode(NodeAt(root, path).value)
    ensures ContainsRange(RangeOf(root), RangeOf(NodeAt(root, path).value))
    ensures path == [] ==> SelectionAt(root, path, r) == CoveredText(r, root.text)
    ensures path != [] && ContainsRange(RangeOf(NodeAt(root, path).value), r) ==>
      SelectionAt(root, path, r) == Ok(root.text[r.start..r.end])
    ensures path != [] && !ContainsRange(RangeOf(NodeAt(root, path).value), r) ==>
      SelectionAt(root, path, r) == Err(IllegalArgument)
    ensures SelectionAt(root, path, RangeOf(NodeAt(root, path).value)) ==
      Ok(root.text[RangeOf(NodeAt(root, path).value).start..RangeOf(NodeAt(root, path).value).end])
    decreases |path|
  {
    var d := NodeAt(root, path).value;
    NodeAtValid(root, path);
    if path != [] {
      var q := path[..|path| - 1];
      NodeAtParent(root, path);
      NodeAtValid(root, q);
      var pd := NodeAt(root, q).value;
      ChildContained(pd, path[|path| - 1]);
      if ContainsRange(RangeOf(d), r) {
        SelectionIsStorySubstring(root, q, r);
      }
      SelectionIsStorySubstring(root, q, RangeOf(d));
    }
  }
}
