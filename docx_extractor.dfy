/**
 * Extraction of paragraphs from a Word document (ioProcessing/docx/
 * DocXDocumentExtractor.java). The document body is modelled as the uniform
 * content tree docx4j exposes: every element has a kind and a list of
 * children. The style lookup that resolves a paragraph's alignment and a
 * run's bold, italics and underline settings is not modelled; those
 * resolved settings are carried on the element kinds.
 */
module DocXExtraction {
  import opened Wrappers
  import opened TextRanges
  import opened Characters
  import opened ExtractedDocuments
  import StoryTree

  datatype NodeKind =
    | ParagraphElement(centered: bool)
    | RunElement(bold: bool, italics: bool, underline: bool)
    | TextElement(value: string)
    | DelText
    | TrackChange
    | CommentRangeStart
    | CommentRangeEnd
    | OtherElement

  datatype XmlNode = XmlNode(kind: NodeKind, content: seq<XmlNode>)

  /** The loaded package: whether it parsed, how many comments its comments part holds, and the body. */
  datatype SourceDocument = SourceDocument(loads: bool, commentCount: nat, body: seq<XmlNode>)

  // ---------------------------------------------------------------------
  // Revision data
  // ---------------------------------------------------------------------

  /** The node types whose presence counts as revision data. */
  predicate IsRevisionKind(k: NodeKind)
  {
    k.DelText? || k.TrackChange? || k.CommentRangeStart? || k.CommentRangeEnd?
  }

  /** `containsNodeTypes` as written: a matching node answers false, so nothing ever answers true. */
  predicate ContainsNodeTypesAsWritten(n: XmlNode)
    decreases n
  {
    if IsRevisionKind(n.kind) then false
    else exists i :: 0 <= i < |n.content| && ContainsNodeTypesAsWritten(n.content[i])
  }

  lemma {:induction false} ContainsNodeTypesAsWrittenNeverHolds(n: XmlNode)
    ensures !ContainsNodeTypesAsWritten(n)
    decreases n
  {
    if !IsRevisionKind(n.kind) {
      forall i | 0 <= i < |n.content| ensures !ContainsNodeTypesAsWritten(n.content[i]) {
        ContainsNodeTypesAsWrittenNeverHolds(n.content[i]);
      }
    }
  }

  /** `containsNodeTypes` as intended: the node or one of its descendants is of a revision type. */
  predicate ContainsNodeTypes(n: XmlNode)
    decreases n
  {
    IsRevisionKind(n.kind) || exists i :: 0 <= i < |n.content| && ContainsNodeTypes(n.content[i])
  }

  /** Every element kind occurring in a tree (an independent description of its contents). */
  function KindsIn(n: XmlNode): set<NodeKind>
    decreases n, 1
  {
    {n.kind} + KindsInAll(n.content)
  }

  function KindsInAll(ns: seq<XmlNode>): set<NodeKind>
    decreases ns, 0
  {
    if ns == [] then {} else KindsIn(ns[0]) + KindsInAll(ns[1..])
  }

  /** The corrected check holds exactly when some element kind in the tree is a revision kind. */
  lemma {:induction false} ContainsNodeTypesIff(n: XmlNode)
    ensures ContainsNodeTypes(n) <==> exists k :: k in KindsIn(n) && IsRevisionKind(k)
    decreases n, 1
  {
    ContainsAllIff(n.content);
    if ContainsNodeTypes(n) && !IsRevisionKind(n.kind) {
      var i :| 0 <= i < |n.content| && ContainsNodeTypes(n.content[i]);
      assert ContainsNodeTypes(n.content[i]);
    }
  }

  lemma {:induction false} ContainsAllIff(ns: seq<XmlNode>)
    ensures (exists i :: 0 <= i < |ns| && ContainsNodeTypes(ns[i])) <==> exists k :: k in KindsInAll(ns) && IsRevisionKind(k)
    decreases ns, 0
  {
    if ns != [] {
      ContainsNodeTypesIff(ns[0]);
      ContainsAllIff(ns[1..]);
      if exists i :: 0 <= i < |ns| && ContainsNodeTypes(ns[i]) {
        var i :| 0 <= i < |ns| && ContainsNodeTypes(ns[i]);
        if i > 0 {
          assert ns[1..][i - 1] == ns[i];
        }
      }
      if exists i :: 0 <= i < |ns[1..]| && ContainsNodeTypes(ns[1..][i]) {
        var i :| 0 <= i < |ns[1..]| && ContainsNodeTypes(ns[1..][i]);
        assert ContainsNodeTypes(ns[i + 1]);
      }
    }
  }

  /** `validateNoRevisionData` as written, with the check above. */
  function ValidateNoRevisionDataAsWritten(commentCount: nat, body: seq<XmlNode>): Option<Error>
  {
    if commentCount > 0 then Some(IncludesRevisionData)
    else if exists i :: 0 <= i < |body| && ContainsNodeTypesAsWritten(body[i]) then Some(IncludesRevisionData)
    else None
  }

  /** As written, validation rejects a document only for its comments part. */
  lemma {:induction false} ValidationAsWrittenOnlySeesComments(commentCount: nat, body: seq<XmlNode>)
    ensures ValidateNoRevisionDataAsWritten(commentCount, body).None? <==> commentCount == 0
  {
    forall i | 0 <= i < |body| ensures !ContainsNodeTypesAsWritten(body[i]) {
      ContainsNodeTypesAsWrittenNeverHolds(body[i]);
    }
  }

  /** A paragraph holding deleted text passes the validation as written. */
  lemma {:induction false} DeletedTextSlipsThrough()
    ensures ValidateNoRevisionDataAsWritten(0, [XmlNode(ParagraphElement(false), [XmlNode(DelText, [])])]).None?
    ensures ContainsNodeTypes(XmlNode(ParagraphElement(false), [XmlNode(DelText, [])]))
  {
    ValidationAsWrittenOnlySeesComments(0, [XmlNode(ParagraphElement(false), [XmlNode(DelText, [])])]);
    assert ContainsNodeTypes(XmlNode(DelText, []));
    assert XmlNode(ParagraphElement(false), [XmlNode(DelText, [])]).content[0] == XmlNode(DelText, []);
  }

  /** `validateNoRevisionData`, with the corrected check: a loop over the body that stops at the first offender. */
  method ValidateNoRevisionData(commentCount: nat, body: seq<XmlNode>) returns (err: Option<Error>)
    ensures err.Some? ==> err.value == IncludesRevisionData
    ensures err.None? <==> commentCount == 0 && forall i :: 0 <= i < |body| ==> !ContainsNodeTypes(body[i])
  {
    if commentCount > 0 {
      return Some(IncludesRevisionData);
    }
    var i := 0;
    while i < |body|
      invariant 0 <= i <= |body|
      invariant forall j :: 0 <= j < i ==> !ContainsNodeTypes(body[j])
    {
      if ContainsNodeTypes(body[i]) {
        return Some(IncludesRevisionData);
      }
      i := i + 1;
    }
    return None;
  }

  // ---------------------------------------------------------------------
  // Paragraph text and formatting
  // ---------------------------------------------------------------------

  /** One text element of a run, with the run's resolved formatting. */
  datatype Piece = Piece(text: string, bold: bool, italics: bool, underline: bool)

  /** The pieces contributed by the children of a run: its text elements, in order. */
  function RunPieces(run: NodeKind, elems: seq<XmlNode>): seq<Piece>
    requires run.RunElement?
  {
    if elems == [] then []
    else
      RunPieces(run, elems[..|elems| - 1]) + ElementPieces(run, elems[|elems| - 1])
  }

  /** The piece of one child of a run: its text with the run's formatting, when it is a text element. */
  function ElementPieces(run: NodeKind, elem: XmlNode): seq<Piece>
    requires run.RunElement?
  {
    if elem.kind.TextElement? then [Piece(elem.kind.value, run.bold, run.italics, run.underline)] else []
  }

  /** The pieces of a paragraph's children: only runs contribute. */
  function Pieces(content: seq<XmlNode>): seq<Piece>
  {
    if content == [] then []
    else
      var last := content[|content| - 1];
      Pieces(content[..|content| - 1]) + (if last.kind.RunElement? then RunPieces(last.kind, last.content) else [])
  }

  function Joined(ps: seq<Piece>): string
  {
    if ps == [] then [] else Joined(ps[..|ps| - 1]) + ps[|ps| - 1].text
  }

  /** The range of the k-th piece in the joined text. */
  function PieceRange(ps: seq<Piece>, k: nat): TextRange
    requires k < |ps|
  {
    TextRange(|Joined(ps[..k])|, |Joined(ps[..k + 1])|)
  }

  function PieceRanges(ps: seq<Piece>): seq<TextRange>
  {
    seq(|ps|, k requires 0 <= k < |ps| => PieceRange(ps, k))
  }

  predicate HasFormat(p: Piece, ft: FormattingType)
  {
    match ft
    case Bold => p.bold
    case Italics => p.italics
    case Underline => p.underline
  }

  /** The ranges of the pieces carrying formatting `ft`, collected piece by piece. */
  function FormatRanges(ps: seq<Piece>, ft: FormattingType): set<TextRange>
  {
    if ps == [] then {}
    else
      var init := ps[..|ps| - 1];
      FormatRanges(init, ft)
      + (if HasFormat(ps[|ps| - 1], ft) then {TextRange(|Joined(init)|, |Joined(ps)|)} else {})
  }

  function FormattingOf(ps: seq<Piece>): Formatting
  {
    Formatting(FormatRanges(ps, Bold), FormatRanges(ps, Italics), FormatRanges(ps, Underline))
  }

  /** Appending a piece leaves the ranges of the earlier pieces as they were. */
  lemma {:induction false} PieceRangeSnoc(ps: seq<Piece>, p: Piece, k: nat)
    requires k < |ps|
    ensures PieceRange(ps + [p], k) == PieceRange(ps, k)
  {
    assert (ps + [p])[..k] == ps[..k];
    assert (ps + [p])[..k + 1] == ps[..k + 1];
  }

  /** Records range `r` under each formatting that is on. */
  function AddRange(f: Formatting, r: TextRange, bold: bool, italics: bool, underline: bool): Formatting
  {
    Formatting(
      f.bold + (if bold then {r} else {}),
      f.italics + (if italics then {r} else {}),
      f.underline + (if underline then {r} else {}))
  }

  lemma {:induction false} JoinedSnoc(ps: seq<Piece>, p: Piece)
    ensures Joined(ps + [p]) == Joined(ps) + p.text
  {
    assert (ps + [p])[..|ps|] == ps;
  }

  lemma {:induction false} FormatRangesSnoc(ps: seq<Piece>, p: Piece, ft: FormattingType)
    ensures FormatRanges(ps + [p], ft) ==
      FormatRanges(ps, ft) + (if HasFormat(p, ft) then {TextRange(|Joined(ps)|, |Joined(ps)| + |p.text|)} else {})
  {
    assert (ps + [p])[..|ps|] == ps;
    JoinedSnoc(ps, p);
  }

  lemma {:induction false} FormattingOfSnoc(ps: seq<Piece>, p: Piece)
    ensures Joined(ps + [p]) == Joined(ps) + p.text
    ensures FormattingOf(ps + [p]) == AddRange(FormattingOf(ps), TextRange(|Joined(ps)|, |Joined(ps)| + |p.text|), p.bold, p.italics, p.underline)
  {
    JoinedSnoc(ps, p);
    FormatRangesSnoc(ps, p, Bold);
    FormatRangesSnoc(ps, p, Italics);
    FormatRangesSnoc(ps, p, Underline);
  }

  /** `extractFormattingData`: records `childRange` under each formatting the run has. */
  method ExtractFormattingData(run: NodeKind, childRange: TextRange, formatting: Formatting) returns (f: Formatting)
    requires run.RunElement?
    ensures f == AddRange(formatting, childRange, run.bold, run.italics, run.underline)
  {
    f := formatting;
    if run.bold {
      f := f.(bold := f.bold + {childRange});
    }
    if run.italics {
      f := f.(italics := f.italics + {childRange});
    }
    if run.underline {
      f := f.(underline := f.underline + {childRange});
    }
  }

  /**
   * The inner loop of `extractTextFromParagraph`: appends the text of every
   * text element of one run to `text0`, recording each element's range.
   */
  method ExtractRunText(run: NodeKind, elems: seq<XmlNode>, text0: string, formatting0: Formatting, ghost ps0: seq<Piece>)
    returns (text: string, formatting: Formatting)
    requires run.RunElement?
    requires text0 == Joined(ps0) && formatting0 == FormattingOf(ps0)
    ensures text == Joined(ps0 + RunPieces(run, elems))
    ensures formatting == FormattingOf(ps0 + RunPieces(run, elems))
  {
    text, formatting := text0, formatting0;
    ghost var ps := ps0;
    var j := 0;
    while j < |elems|
      invariant 0 <= j <= |elems|
      invariant ps == ps0 + RunPieces(run, elems[..j])
      invariant text == Joined(ps)
      invariant formatting == FormattingOf(ps)
    {
      RunPiecesSnoc(run, elems, j, ps0);
      text, formatting, ps := ExtractElementText(run, elems[j], text, formatting, ps);
      j := j + 1;
    }
    assert elems[..|elems|] == elems;
  }

  /** One turn of the inner loop: the text of one child of a run, when it is a text element. */
  method ExtractElementText(run: NodeKind, runChild: XmlNode, text0: string, formatting0: Formatting, ghost ps0: seq<Piece>)
    returns (text: string, formatting: Formatting, ghost ps: seq<Piece>)
    requires run.RunElement?
    requires text0 == Joined(ps0) && formatting0 == FormattingOf(ps0)
    ensures ps == ps0 + ElementPieces(run, runChild)
    ensures text == Joined(ps) && formatting == FormattingOf(ps)
  {
    text, formatting, ps := text0, formatting0, ps0;
    if runChild.kind.TextElement? {
      var childText := runChild.kind.value;
      var childRange := TextRange(|text|, |text| + |childText|);
      ghost var p := Piece(childText, run.bold, run.italics, run.underline);
      FormattingOfSnoc(ps, p);
      text := text + childText;
      formatting := ExtractFormattingData(run, childRange, formatting);
      ps := ps + [p];
    } else {
      assert ps0 + ElementPieces(run, runChild) == ps0;
    }
  }

  /** One more child of a run adds its piece, if it is a text element, after those of the earlier children. */
  lemma {:induction false} RunPiecesSnoc(run: NodeKind, elems: seq<XmlNode>, j: nat, ps0: seq<Piece>)
    requires run.RunElement? && j < |elems|
    ensures ps0 + RunPieces(run, elems[..j + 1]) == (ps0 + RunPieces(run, elems[..j])) + ElementPieces(run, elems[j])
  {
    assert elems[..j + 1][..j] == elems[..j];
  }

  /**
   * `extractTextFromParagraph`: appends the text of every text element of
   * every run, recording the element's range under each formatting its run
   * has; other children of the paragraph are skipped.
   */
  method ExtractTextFromParagraph(content: seq<XmlNode>) returns (text: string, formatting: Formatting)
    ensures text == Joined(Pieces(content))
    ensures formatting == FormattingOf(Pieces(content))
  {
    text := [];
    formatting := Formatting({}, {}, {});
    var i := 0;
    while i < |content|
      invariant 0 <= i <= |content|
      invariant text == Joined(Pieces(content[..i]))
      invariant formatting == FormattingOf(Pieces(content[..i]))
    {
      var child := content[i];
      assert content[..i + 1][..i] == content[..i];
      assert content[..i + 1][i] == child;
      assert Pieces(content[..i + 1]) ==
        Pieces(content[..i]) + (if child.kind.RunElement? then RunPieces(child.kind, child.content) else []);
      if child.kind.RunElement? {
        text, formatting := ExtractRunText(child.kind, child.content, text, formatting, Pieces(content[..i]));
      } else {
        assert Pieces(content[..i + 1]) == Pieces(content[..i]);
      }
      i := i + 1;
    }
    assert content[..|content|] == content;
  }

  /** Joining distributes over concatenation. */
  lemma {:induction false} JoinedAppend(a: seq<Piece>, b: seq<Piece>)
    ensures Joined(a + b) == Joined(a) + Joined(b)
    decreases |b|
  {
    if b != [] {
      var b0 := b[..|b| - 1];
      assert (a + b)[..|a + b| - 1] == a + b0;
      assert (a + b)[|a + b| - 1] == b[|b| - 1];
      JoinedAppend(a, b0);
      assert Joined(a + b) == Joined(a + b0) + b[|b| - 1].text;
    } else {
      assert a + b == a;
    }
  }

  /** The piece ranges tile the paragraph text from 0 to its length. */
  lemma {:induction false} PieceRangesTile(ps: seq<Piece>)
    ensures StoryTree.Tiles(TextRange(0, |Joined(ps)|), PieceRanges(ps))
  {
    var rs := PieceRanges(ps);
    StoryTree.TilesIff(0, |Joined(ps)|, rs);
    if ps != [] {
      assert ps[..|ps|] == ps;
    }
  }

  /** Each piece range covers exactly that piece's text. */
  lemma {:induction false} PieceRangeCoversPiece(ps: seq<Piece>, k: nat)
    requires k < |ps|
    ensures 0 <= PieceRange(ps, k).start <= PieceRange(ps, k).end <= |Joined(ps)|
    ensures Joined(ps)[PieceRange(ps, k).start..PieceRange(ps, k).end] == ps[k].text
  {
    assert ps[..k + 1][..k] == ps[..k];
    assert Joined(ps[..k + 1]) == Joined(ps[..k]) + ps[k].text;
    assert ps == ps[..k + 1] + ps[k + 1..];
    JoinedAppend(ps[..k + 1], ps[k + 1..]);
  }

  /** Every range recorded for `ft` is the range of a piece carrying `ft`. */
  lemma {:induction false} FormatRangesSound(ps: seq<Piece>, ft: FormattingType, r: TextRange)
    requires r in FormatRanges(ps, ft)
    ensures exists k :: 0 <= k < |ps| && HasFormat(ps[k], ft) && r == PieceRange(ps, k)
  {
    var n := |ps| - 1;
    var init := ps[..n];
    assert ps == init + [ps[n]];
    if r in FormatRanges(init, ft) {
      FormatRangesSound(init, ft, r);
      var k :| 0 <= k < |init| && HasFormat(init[k], ft) && r == PieceRange(init, k);
      PieceRangeSnoc(init, ps[n], k);
      assert HasFormat(ps[k], ft) && r == PieceRange(ps, k);
    } else {
      assert ps[..n + 1] == ps;
      assert HasFormat(ps[n], ft) && r == PieceRange(ps, n);
    }
  }

  /** The range of every piece carrying `ft` is recorded for `ft`. */
  lemma {:induction false} FormatRangesComplete(ps: seq<Piece>, ft: FormattingType, k: nat)
    requires k < |ps| && HasFormat(ps[k], ft)
    ensures PieceRange(ps, k) in FormatRanges(ps, ft)
  {
    var n := |ps| - 1;
    var init := ps[..n];
    assert ps == init + [ps[n]];
    if k < n {
      FormatRangesComplete(init, ft, k);
      PieceRangeSnoc(init, ps[n], k);
    } else {
      assert ps[..n + 1] == ps;
    }
  }

  /** A range is recorded for `ft` exactly when it is the range of a piece carrying `ft`. */
  lemma {:induction false} FormatRangesIff(ps: seq<Piece>, ft: FormattingType, r: TextRange)
    ensures r in FormatRanges(ps, ft) <==> exists k :: 0 <= k < |ps| && HasFormat(ps[k], ft) && r == PieceRange(ps, k)
  {
    if r in FormatRanges(ps, ft) {
      FormatRangesSound(ps, ft, r);
    }
    if exists k :: 0 <= k < |ps| && HasFormat(ps[k], ft) && r == PieceRange(ps, k) {
      var k :| 0 <= k < |ps| && HasFormat(ps[k], ft) && r == PieceRange(ps, k);
      FormatRangesComplete(ps, ft, k);
    }
  }

  /**
   * Every formatted range lies inside the paragraph text and covers the text
   * of a text element whose run has that formatting; every such element's
   * range is recorded.
   */
  lemma {:induction false} FormattedRangesMeaning(ps: seq<Piece>, ft: FormattingType)
    ensures forall r :: r in FormattedText(FormattingOf(ps), ft) ==>
      0 <= r.start <= r.end <= |Joined(ps)|
      && exists k :: 0 <= k < |ps| && HasFormat(ps[k], ft) && Joined(ps)[r.start..r.end] == ps[k].text
    ensures forall k :: 0 <= k < |ps| && HasFormat(ps[k], ft) ==> PieceRange(ps, k) in FormattedText(FormattingOf(ps), ft)
  {
    forall r | r in FormattedText(FormattingOf(ps), ft)
      ensures 0 <= r.start <= r.end <= |Joined(ps)|
      ensures exists k :: 0 <= k < |ps| && HasFormat(ps[k], ft) && Joined(ps)[r.start..r.end] == ps[k].text
    {
      FormatRangesIff(ps, ft, r);
      var k :| 0 <= k < |ps| && HasFormat(ps[k], ft) && r == PieceRange(ps, k);
      PieceRangeCoversPiece(ps, k);
    }
    forall k | 0 <= k < |ps| && HasFormat(ps[k], ft) ensures PieceRange(ps, k) in FormattedText(FormattingOf(ps), ft) {
      FormatRangesIff(ps, ft, PieceRange(ps, k));
    }
  }

  // ---------------------------------------------------------------------
  // Paragraph classification
  // ---------------------------------------------------------------------

  /** `DocumentStage`: how far through the front matter and the text the extraction has got. */
  datatype Stage =
    | NotStarted | ContactInfoStage | PreTitleBlank | TitleStage | ByLineStage
    | PostTitleBlank | TextStage | PreChapterTitleBlank | ChapterTitleStage | PostChapterTitleBlank

  function Priority(s: Stage): (p: nat)
    ensures p <= 9
  {
    match s
    case NotStarted => 0
    case ContactInfoStage => 1
    case PreTitleBlank => 2
    case TitleStage => 3
    case ByLineStage => 4
    case PostTitleBlank => 5
    case TextStage => 6
    case PreChapterTitleBlank => 7
    case ChapterTitleStage => 8
    case PostChapterTitleBlank => 9
  }

  /** The stage a blank paragraph moves to: the next blank stage at or after the current one. */
  function BlankStage(s: Stage): Stage
  {
    if Priority(s) <= Priority(PreTitleBlank) then PreTitleBlank
    else if Priority(s) <= Priority(PostTitleBlank) then PostTitleBlank
    else if Priority(s) <= Priority(PreChapterTitleBlank) then PreChapterTitleBlank
    else PostChapterTitleBlank
  }

  /** Specification of `getParagraphType`: the type of a paragraph and the stage after it. */
  function Classify(s: Stage, text: string, centered: bool): (ParagraphType, Stage)
  {
    if IsBlank(Trim(text)) then (Blank, BlankStage(s))
    else if Trim(text) == "#" then (SceneBreak, TextStage)
    else if centered then
      if Priority(s) < Priority(TitleStage) then (Title, TitleStage)
      else if s == TitleStage then
        if ContainsSubstring(LowerCase(text), "by ") then (ByLine, ByLineStage) else (Title, TitleStage)
      else (ChapterTitle, ChapterTitleStage)
    else if Priority(s) < Priority(TitleStage) then (ContactInfo, ContactInfoStage)
    else (Text, TextStage)
  }

  /** `DocumentStageHolder`, whose stage `getParagraphType` advances. */
  class StageHolder {
    var currentStage: Stage

    constructor()
      ensures currentStage == NotStarted
    {
      currentStage := NotStarted;
    }

    /** `getParagraphType`, with the paragraph's centering already resolved. */
    method GetParagraphType(paragraphText: string, centered: bool) returns (t: ParagraphType)
      modifies this
      ensures t == Classify(old(currentStage), paragraphText, centered).0
      ensures currentStage == Classify(old(currentStage), paragraphText, centered).1
    {
      var trimmed := Trim(paragraphText);
      var saysBy := ContainsSubstring(LowerCase(paragraphText), "by ");
      if IsBlank(trimmed) {
        if Priority(currentStage) <= Priority(PreTitleBlank) {
          currentStage := PreTitleBlank;
        } else if Priority(currentStage) <= Priority(PostTitleBlank) {
          currentStage := PostTitleBlank;
        } else if Priority(currentStage) <= Priority(PreChapterTitleBlank) {
          currentStage := PreChapterTitleBlank;
        } else if Priority(currentStage) <= Priority(PostChapterTitleBlank) {
          currentStage := PostChapterTitleBlank;
        }
        return Blank;
      } else if trimmed == "#" {
        currentStage := TextStage;
        return SceneBreak;
      } else if centered {
        if Priority(currentStage) < Priority(TitleStage) {
          currentStage := TitleStage;
          return Title;
        } else if currentStage == TitleStage {
          if saysBy {
            currentStage := ByLineStage;
            return ByLine;
          } else {
            currentStage := TitleStage;
            return Title;
          }
        } else {
          currentStage := ChapterTitleStage;
          return ChapterTitle;
        }
      } else if Priority(currentStage) < Priority(TitleStage) {
        currentStage := ContactInfoStage;
        return ContactInfo;
      } else {
        currentStage := TextStage;
        return Text;
      }
    }
  }

  /** A blank paragraph never moves the stage backwards, and lands on a blank stage. */
  lemma {:induction false} BlankNeverLowersPriority(s: Stage, text: string, centered: bool)
    requires Classify(s, text, centered).0 == Blank
    ensures Priority(Classify(s, text, centered).1) >= Priority(s)
    ensures Classify(s, text, centered).1 in {PreTitleBlank, PostTitleBlank, PreChapterTitleBlank, PostChapterTitleBlank}
  {
  }

  /** Once past the title, a paragraph is never a title, by-line or contact information, and the stage stays past the title. */
  lemma {:induction false} PastTitleStaysPastTitle(s: Stage, text: string, centered: bool)
    requires Priority(s) > Priority(TitleStage)
    ensures Classify(s, text, centered).0 !in {Title, ByLine, ContactInfo}
    ensures Priority(Classify(s, text, centered).1) > Priority(TitleStage)
  {
  }

  /** A TEXT paragraph is non-blank, so it has a last character. */
  lemma {:induction false} TextParagraphIsNonEmpty(s: Stage, text: string, centered: bool)
    ensures Classify(s, text, centered).0 == Text ==> |text| > 0 && !IsBlank(text)
  {
    if IsBlank(text) {
      BlankStaysBlankWhenTrimmed(text);
    }
  }

  /** Trimming a blank text leaves nothing. */
  lemma {:induction false} BlankStaysBlankWhenTrimmed(text: string)
    requires IsBlank(text)
    ensures Trim(text) == []
  {
    TrimStartSpec(text);
    TrimEndSpec(TrimStart(text));
  }

  /**
   * The trailing space rule: a TEXT paragraph not ending in ' ' gets one.
   * The emptiness test only keeps the function total; a TEXT paragraph is
   * never empty (TextParagraphIsNonEmpty).
   */
  function FinalText(text: string, t: ParagraphType): string
  {
    if t == Text && text != [] && text[|text| - 1] != ' ' then text + " " else text
  }

  /** The text of the i-th paragraph of a body, as its runs join it. */
  function RawTextAt(ps: seq<XmlNode>, i: nat): string
    requires i < |ps|
  {
    Joined(Pieces(ps[i].content))
  }

  /** The stage in force when the i-th paragraph is met: the first i classified in order, from NOT_STARTED. */
  function StageBefore(ps: seq<XmlNode>, i: nat): Stage
    requires i <= |ps|
  {
    if i == 0 then NotStarted
    else Classify(StageBefore(ps, i - 1), RawTextAt(ps, i - 1), IsCentered(ps[i - 1])).1
  }

  predicate IsCentered(p: XmlNode)
  {
    p.kind.ParagraphElement? && p.kind.centered
  }

  /** The type given to the i-th paragraph of a body. */
  function TypeAt(ps: seq<XmlNode>, i: nat): ParagraphType
    requires i < |ps|
  {
    Classify(StageBefore(ps, i), RawTextAt(ps, i), IsCentered(ps[i])).0
  }

  /** Once the stage is past the title, no later paragraph is a title, a by-line or contact information. */
  lemma {:induction false} TitlePhaseEnds(ps: seq<XmlNode>, i: nat, j: nat)
    requires i <= j < |ps|
    requires Priority(StageBefore(ps, i)) > Priority(TitleStage)
    ensures Priority(StageBefore(ps, j)) > Priority(TitleStage)
    ensures TypeAt(ps, j) !in {Title, ByLine, ContactInfo}
  {
    TitleStageLasts(ps, i, j);
    PastTitleAt(ps, j, j + 1);
  }

  /** A stage past the title stays past it. */
  lemma {:induction false} TitleStageLasts(ps: seq<XmlNode>, i: nat, j: nat)
    requires i <= j <= |ps|
    requires PastTitle(StageBefore(ps, i))
    ensures PastTitle(StageBefore(ps, j))
    decreases j
  {
    if i < j {
      TitleStageLasts(ps, i, j - 1);
      PastTitleAt(ps, j - 1, j);
    }
  }

  predicate PastTitle(s: Stage)
  {
    Priority(s) > Priority(TitleStage)
  }

  /** `PastTitleStaysPastTitle` at the i-th paragraph. */
  lemma {:induction false} PastTitleAt(ps: seq<XmlNode>, i: nat, next: nat)
    requires i < |ps| && next == i + 1 && Priority(StageBefore(ps, i)) > Priority(TitleStage)
    ensures Priority(StageBefore(ps, next)) > Priority(TitleStage)
    ensures TypeAt(ps, i) !in {Title, ByLine, ContactInfo}
  {
    PastTitleStaysPastTitle(StageBefore(ps, i), RawTextAt(ps, i), IsCentered(ps[i]));
  }

  /**
   * Every paragraph before a title is blank, contact information or itself
   * part of the title: once the noise types are dropped, the title
   * paragraphs come first.
   */
  lemma {:induction false} TitleComesFirst(ps: seq<XmlNode>, i: nat, j: nat)
    requires i < j < |ps| && TypeAt(ps, j) == Title
    ensures TypeAt(ps, i) in {Title, Blank, ContactInfo}
  {
    TitleStageAt(ps, j);
    FrontMatterBefore(ps, i, j);
  }

  /** A title is met while the stage is still at most TITLE. */
  lemma {:induction false} TitleStageAt(ps: seq<XmlNode>, j: nat)
    requires j < |ps| && TypeAt(ps, j) == Title
    ensures !PastTitle(StageBefore(ps, j))
  {
    if PastTitle(StageBefore(ps, j)) {
      TitlePhaseEnds(ps, j, j);
    }
  }

  /** While the stage at the j-th paragraph is at most TITLE, every paragraph before it is front matter. */
  lemma {:induction false} FrontMatterBefore(ps: seq<XmlNode>, i: nat, j: nat)
    requires i < j < |ps| && !PastTitle(StageBefore(ps, j))
    ensures TypeAt(ps, i) in {Title, Blank, ContactInfo}
  {
    FrontMatterNext(ps, i, i + 1, j);
  }

  /** `FrontMatterBefore` with the index of the next paragraph named. */
  lemma {:induction false} FrontMatterNext(ps: seq<XmlNode>, i: nat, next: nat, j: nat)
    requires i < j < |ps| && next == i + 1 && !PastTitle(StageBefore(ps, j))
    ensures TypeAt(ps, i) in {Title, Blank, ContactInfo}
  {
    StillFrontMatter(ps, next, j);
    FrontMatterAt(ps, i);
  }

  /** A stage at most TITLE was at most TITLE at every earlier paragraph. */
  lemma {:induction false} StillFrontMatter(ps: seq<XmlNode>, k: nat, j: nat)
    requires k <= j < |ps| && !PastTitle(StageBefore(ps, j))
    ensures !PastTitle(StageBefore(ps, k))
  {
    if PastTitle(StageBefore(ps, k)) {
      TitleStageLasts(ps, k, j);
    }
  }

  /** The i-th paragraph, when the stage after it is still at most TITLE, is blank, contact information or a title. */
  lemma {:induction false} FrontMatterAt(ps: seq<XmlNode>, i: nat)
    requires i < |ps| && Priority(StageBefore(ps, i + 1)) <= Priority(TitleStage)
    ensures TypeAt(ps, i) in {Title, Blank, ContactInfo}
  {
    FrontMatterStep(StageBefore(ps, i), RawTextAt(ps, i), IsCentered(ps[i]));
  }

  /** A paragraph after which the stage is still at most TITLE is blank, contact information or a title. */
  lemma {:induction false} FrontMatterStep(s: Stage, text: string, centered: bool)
    requires Priority(Classify(s, text, centered).1) <= Priority(TitleStage)
    ensures Classify(s, text, centered).0 in {Title, Blank, ContactInfo}
  {
    if Priority(s) > Priority(TitleStage) {
      PastTitleStaysPastTitle(s, text, centered);
    }
  }

  /**
   * `p` is the extracted form of the i-th paragraph: its classified type, its
   * text with the trailing space rule applied and the formatting of its runs
   * (its quoted ranges, those of that final text, are `QuotesMarked`).
   */
  predicate ExtractedAs(ps: seq<XmlNode>, i: nat, p: ExtractedParagraph)
    requires i < |ps|
  {
    && p.ptype == TypeAt(ps, i)
    && p.text == FinalText(RawTextAt(ps, i), TypeAt(ps, i))
    && p.formatting == FormattingOf(Pieces(ps[i].content))
  }

  /** `P(k, xs[k])` holds at every index of `xs`, checked from the back. */
  predicate EachIndexed<T>(xs: seq<T>, P: (nat, T) -> bool)
  {
    xs == [] || (EachIndexed(xs[..|xs| - 1], P) && P(|xs| - 1, xs[|xs| - 1]))
  }

  lemma {:induction false} EachIndexedIff<T>(xs: seq<T>, P: (nat, T) -> bool)
    ensures EachIndexed(xs, P) <==> forall k :: 0 <= k < |xs| ==> P(k, xs[k])
  {
    if xs != [] {
      var init := xs[..|xs| - 1];
      EachIndexedIff(init, P);
      assert forall k :: 0 <= k < |init| ==> init[k] == xs[k];
    }
  }

  /** `ExtractedAs` for the paragraphs of `body`, with their quotes marked, as a test on (index, paragraph) pairs. */
  function IsExtractedFrom(body: seq<XmlNode>): (nat, ExtractedParagraph) -> bool
  {
    (k: nat, p: ExtractedParagraph) => k < |body| && ExtractedAs(body, k, p) && QuotesMarked(p)
  }

  /** Adding the next extracted paragraph keeps every index extracted. */
  lemma {:induction false} EachIndexedSnoc(body: seq<XmlNode>, paragraphs: seq<ExtractedParagraph>, p: ExtractedParagraph)
    requires EachIndexed(paragraphs, IsExtractedFrom(body)) && IsExtractedFrom(body)(|paragraphs|, p)
    ensures EachIndexed(paragraphs + [p], IsExtractedFrom(body))
  {
    assert (paragraphs + [p])[..|paragraphs|] == paragraphs;
  }

  /** The first n body elements are all paragraphs. */
  predicate ParagraphsUpTo(ps: seq<XmlNode>, n: nat)
    requires n <= |ps|
  {
    n == 0 || (ParagraphsUpTo(ps, n - 1) && ps[n - 1].kind.ParagraphElement?)
  }

  lemma {:induction false} ParagraphsUpToIff(ps: seq<XmlNode>, n: nat)
    requires n <= |ps|
    ensures ParagraphsUpTo(ps, n) <==> forall k :: 0 <= k < n ==> ps[k].kind.ParagraphElement?
  {
    if n > 0 {
      ParagraphsUpToIff(ps, n - 1);
    }
  }

  /** `paragraphs` holds the extracted form of each paragraph of `body`, in order. */
  predicate ExtractedBody(body: seq<XmlNode>, paragraphs: seq<ExtractedParagraph>)
  {
    |paragraphs| == |body| && forall i :: 0 <= i < |body| ==> ExtractedAs(body, i, paragraphs[i]) && QuotesMarked(paragraphs[i])
  }

  /** Every TEXT paragraph an extraction yields has text that is not blank. */
  lemma {:induction false} ExtractedTextsNonEmpty(body: seq<XmlNode>, paragraphs: seq<ExtractedParagraph>)
    requires ExtractedBody(body, paragraphs)
    ensures forall k :: 0 <= k < |paragraphs| && paragraphs[k].ptype == Text ==> paragraphs[k].text != "" && !IsBlank(paragraphs[k].text)
  {
    forall k | 0 <= k < |paragraphs| && paragraphs[k].ptype == Text
      ensures paragraphs[k].text != "" && !IsBlank(paragraphs[k].text)
    {
      assert ExtractedAs(body, k, paragraphs[k]);
      TextParagraphIsNonEmpty(StageBefore(body, k), RawTextAt(body, k), IsCentered(body[k]));
      NonBlankAppend(RawTextAt(body, k), " ");
    }
  }

  /**
   * The body of the mapping lambda of `extractDocument`, for the i-th
   * paragraph of the body.
   */
  method ExtractParagraph(paragraph: XmlNode, stageHolder: StageHolder, ghost body: seq<XmlNode>, ghost i: nat)
    returns (p: ExtractedParagraph)
    requires i < |body| && paragraph == body[i] && paragraph.kind.ParagraphElement?
    requires stageHolder.currentStage == StageBefore(body, i)
    modifies stageHolder
    ensures ExtractedAs(body, i, p) && QuotesMarked(p)
    ensures stageHolder.currentStage == StageBefore(body, i + 1)
  {
    var paragraphText, formattingData := ExtractTextFromParagraph(paragraph.content);
    ghost var before := stageHolder.currentStage;
    var t := stageHolder.GetParagraphType(paragraphText, paragraph.kind.centered);
    TextParagraphIsNonEmpty(before, paragraphText, paragraph.kind.centered);
    if t == Text && paragraphText[|paragraphText| - 1] != ' ' {
      paragraphText := paragraphText + " ";
    }
    p := NewExtractedParagraph(paragraphText, t, formattingData);
  }

  /**
   * `extractDocument` as written: load, validate with the check as written
   * (so only the comments part can reject the document), then map every
   * body element, in order, to an extracted paragraph with one stage holder
   * threaded through. Its four progress reports (before loading, before
   * validating, before the mapping and at the end) are the reports 0 to 3
   * that `cancels` may cancel.
   */
  method ExtractDocument(doc: SourceDocument, cancels: nat -> bool) returns (res: Result<seq<ExtractedParagraph>>)
    ensures cancels(0) ==> res == Err(TaskCanceled)
    ensures !cancels(0) && !doc.loads ==> res == Err(CorruptDocument)
    ensures !cancels(0) && !cancels(1) && doc.loads && doc.commentCount > 0 ==> res == Err(IncludesRevisionData)
    ensures res.Err? ==> res.error in {TaskCanceled, CorruptDocument, IncludesRevisionData, ClassCast}
    ensures res.Ok? <==>
      !cancels(0) && !cancels(1) && !cancels(2) && !cancels(3) && doc.loads && doc.commentCount == 0 &&
      forall i :: 0 <= i < |doc.body| ==> doc.body[i].kind.ParagraphElement?
    ensures res.Ok? ==> ExtractedBody(doc.body, res.value)
    ensures res.Ok? ==> forall k :: 0 <= k < |res.value| && res.value[k].ptype == Text ==> res.value[k].text != "" && !IsBlank(res.value[k].text)
  {
    if cancels(0) {
      return Err(TaskCanceled);
    }
    if !doc.loads {
      return Err(CorruptDocument);
    }
    if cancels(1) {
      return Err(TaskCanceled);
    }
    var err := ValidateNoRevisionDataAsWritten(doc.commentCount, doc.body);
    ValidationAsWrittenOnlySeesComments(doc.commentCount, doc.body);
    if err.Some? {
      return Err(err.value);
    }
    res := ExtractValidated(doc.body, cancels);
  }

  /**
   * `extractDocument` with the corrected validation: a body element holding
   * deleted text, a tracked change or a comment range is rejected as well.
   */
  method ExtractDocumentCorrected(doc: SourceDocument, cancels: nat -> bool) returns (res: Result<seq<ExtractedParagraph>>)
    ensures cancels(0) ==> res == Err(TaskCanceled)
    ensures !cancels(0) && !doc.loads ==> res == Err(CorruptDocument)
    ensures (!cancels(0) && !cancels(1) && doc.loads &&
             (doc.commentCount > 0 || exists i :: 0 <= i < |doc.body| && ContainsNodeTypes(doc.body[i]))) ==>
      res == Err(IncludesRevisionData)
    ensures res.Err? ==> res.error in {TaskCanceled, CorruptDocument, IncludesRevisionData, ClassCast}
    ensures res.Ok? <==>
      !cancels(0) && !cancels(1) && !cancels(2) && !cancels(3) && doc.loads && doc.commentCount == 0 &&
      (forall i :: 0 <= i < |doc.body| ==> !ContainsNodeTypes(doc.body[i])) &&
      forall i :: 0 <= i < |doc.body| ==> doc.body[i].kind.ParagraphElement?
    ensures res.Ok? ==> ExtractedBody(doc.body, res.value)
    ensures res.Ok? ==> forall k :: 0 <= k < |res.value| && res.value[k].ptype == Text ==> res.value[k].text != "" && !IsBlank(res.value[k].text)
  {
    if cancels(0) {
      return Err(TaskCanceled);
    }
    if !doc.loads {
      return Err(CorruptDocument);
    }
    if cancels(1) {
      return Err(TaskCanceled);
    }
    var err := ValidateNoRevisionData(doc.commentCount, doc.body);
    if err.Some? {
      return Err(err.value);
    }
    res := ExtractValidated(doc.body, cancels);
  }

  /**
   * The part of `extractDocument` after validation: progress report 2, the
   * stream over the body elements, and report 3 before the result is
   * returned.
   */
  method ExtractValidated(body: seq<XmlNode>, cancels: nat -> bool) returns (res: Result<seq<ExtractedParagraph>>)
    ensures cancels(2) ==> res == Err(TaskCanceled)
    ensures res.Err? ==> res.error in {TaskCanceled, ClassCast}
    ensures res.Ok? <==> !cancels(2) && !cancels(3) && forall i :: 0 <= i < |body| ==> body[i].kind.ParagraphElement?
    ensures res.Ok? ==> ExtractedBody(body, res.value)
    ensures res.Ok? ==> forall k :: 0 <= k < |res.value| && res.value[k].ptype == Text ==> res.value[k].text != "" && !IsBlank(res.value[k].text)
  {
    if cancels(2) {
      return Err(TaskCanceled);
    }
    res := ExtractParagraphs(body);
    if res.Ok? {
      if cancels(3) {
        return Err(TaskCanceled);
      }
      CollectedBody(body, res.value);
      ExtractedTextsNonEmpty(body, res.value);
    }
  }

  /** A full collection of extracted paragraphs is the extraction of the whole body. */
  lemma {:induction false} CollectedBody(body: seq<XmlNode>, paragraphs: seq<ExtractedParagraph>)
    requires |paragraphs| == |body| && EachIndexed(paragraphs, IsExtractedFrom(body))
    ensures ExtractedBody(body, paragraphs)
  {
    EachIndexedIff(paragraphs, IsExtractedFrom(body));
    forall k | 0 <= k < |body|
      ensures ExtractedAs(body, k, paragraphs[k]) && QuotesMarked(paragraphs[k])
    {
      assert IsExtractedFrom(body)(k, paragraphs[k]);
    }
  }

  /** One element of the stream of `extractDocument`: the next body element, a paragraph, is mapped and collected. */
  method ExtractNext(body: seq<XmlNode>, paragraphs0: seq<ExtractedParagraph>, stageHolder: StageHolder)
    returns (paragraphs: seq<ExtractedParagraph>)
    requires |paragraphs0| < |body| && body[|paragraphs0|].kind.ParagraphElement?
    requires stageHolder.currentStage == StageBefore(body, |paragraphs0|)
    requires EachIndexed(paragraphs0, IsExtractedFrom(body))
    modifies stageHolder
    ensures |paragraphs| == |paragraphs0| + 1 && EachIndexed(paragraphs, IsExtractedFrom(body))
    ensures stageHolder.currentStage == StageBefore(body, |paragraphs|)
  {
    var i := |paragraphs0|;
    var p := ExtractParagraph(body[i], stageHolder, body, i);
    EachIndexedSnoc(body, paragraphs0, p);
    paragraphs := paragraphs0 + [p];
  }

  /**
   * The stream of `extractDocument`: each body element is cast to a
   * paragraph (the first that is not one ends the extraction) and mapped,
   * in order, with one stage holder threaded through.
   */
  method ExtractParagraphs(body: seq<XmlNode>) returns (res: Result<seq<ExtractedParagraph>>)
    ensures res.Ok? <==> forall i :: 0 <= i < |body| ==> body[i].kind.ParagraphElement?
    ensures res.Err? ==> res.error == ClassCast
    ensures res.Ok? ==> |res.value| == |body| && EachIndexed(res.value, IsExtractedFrom(body))
  {
    var paragraphs, castAt := MapParagraphs(body);
    if castAt < |body| {
      return Err(ClassCast);
    }
    ParagraphsUpToIff(body, |body|);
    return Ok(paragraphs);
  }

  /**
   * The mapping of the stream, up to the first element whose cast fails
   * (`castAt`, or the body's length when every cast succeeds).
   */
  method MapParagraphs(body: seq<XmlNode>) returns (paragraphs: seq<ExtractedParagraph>, castAt: nat)
    ensures castAt <= |body| && ParagraphsUpTo(body, castAt)
    ensures castAt < |body| ==> !body[castAt].kind.ParagraphElement?
    ensures |paragraphs| == castAt && EachIndexed(paragraphs, IsExtractedFrom(body))
  {
    var stageHolder := new StageHolder();
    paragraphs := [];
    castAt := 0;
    while castAt < |body| && body[castAt].kind.ParagraphElement?
      invariant castAt <= |body|
      invariant ParagraphsUpTo(body, castAt)
      invariant stageHolder.currentStage == StageBefore(body, castAt)
      invariant |paragraphs| == castAt && EachIndexed(paragraphs, IsExtractedFrom(body))
    {
      paragraphs := ExtractNext(body, paragraphs, stageHolder);
      castAt := castAt + 1;
    }
  }


}
