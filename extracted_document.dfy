/**
 * The file-type neutral paragraph handed from document extraction to story
 * parsing (ioProcessing/ExtractedDocument.java): its text, its type, the
 * ranges of its formatted text and the ranges of its quoted text.
 */
module ExtractedDocuments {
  import opened TextRanges

  datatype ParagraphType = Blank | SceneBreak | Title | ChapterTitle | ContactInfo | ByLine | Text

  datatype FormattingType = Bold | Italics | Underline

  /** The formatting map: one set of paragraph-local ranges per formatting type. */
  datatype Formatting = Formatting(bold: set<TextRange>, italics: set<TextRange>, underline: set<TextRange>)

  function FormattedText(f: Formatting, ft: FormattingType): set<TextRange>
  {
    match ft
    case Bold => f.bold
    case Italics => f.italics
    case Underline => f.underline
  }

  datatype ExtractedParagraph = ExtractedParagraph(
    text: string,
    ptype: ParagraphType,
    formatting: Formatting,
    quoted: set<TextRange>)

  /** `isQuotationMark`: exactly the straight double quote and the two curly double quotes. */
  predicate IsQuotationMark(c: char)
  {
    c == '"' || c == '\U{201C}' || c == '\U{201D}'
  }

  // ---------------------------------------------------------------------
  // Specification of determineQuotedText
  // ---------------------------------------------------------------------

  /** Offsets of the quotation marks of `text`, in increasing order. */
  function QuotePositions(text: string): seq<nat>
  {
    if text == [] then []
    else QuotePositions(text[..|text| - 1]) + (if IsQuotationMark(text[|text| - 1]) then [|text| - 1] else [])
  }

  /** Pairs the 1st and 2nd, 3rd and 4th, ... offsets into ranges that include both marks. */
  function ClosedPairs(ps: seq<nat>): seq<TextRange>
  {
    if |ps| < 2 then [] else [TextRange(ps[0], ps[1] + 1)] + ClosedPairs(ps[2..])
  }

  /** The quoted ranges: the closed pairs, then [last open mark, end of text) if one is left open. */
  function QuoteRanges(text: string): seq<TextRange>
  {
    var ps := QuotePositions(text);
    ClosedPairs(ps) + (if |ps| % 2 == 1 then [TextRange(ps[|ps| - 1], |text|)] else [])
  }

  function SetOf<T>(s: seq<T>): set<T>
  {
    set x | x in s
  }

  /**
   * `determineQuotedText`: a scan that toggles between inside and outside a
   * quote at every quotation mark.
   */
  method DetermineQuotedText(text: string) returns (textRanges: set<TextRange>)
    ensures textRanges == SetOf(QuoteRanges(text))
  {
    var inQuoteBlock := false;
    var startOfBlock := -1;
    textRanges := {};
    ghost var ps: seq<nat> := [];
    var i := 0;
    while i < |text|
      invariant 0 <= i <= |text|
      invariant ps == QuotePositions(text[..i])
      invariant inQuoteBlock <==> |ps| % 2 == 1
      invariant inQuoteBlock ==> startOfBlock == ps[|ps| - 1]
      invariant textRanges == SetOf(ClosedPairs(ps))
    {
      QuotePositionsStep(text, i);
      if IsQuotationMark(text[i]) {
        if !inQuoteBlock {
          ClosedPairsSnoc(ps, i);
          inQuoteBlock := true;
          startOfBlock := i;
        } else {
          ClosedPairsSnoc(ps, i);
          SetOfSnoc(ClosedPairs(ps), TextRange(startOfBlock, i + 1));
          textRanges := textRanges + {TextRange(startOfBlock, i + 1)};
          inQuoteBlock := false;
          startOfBlock := -1;
        }
        ps := ps + [i];
      }
      i := i + 1;
    }
    assert text[..|text|] == text;
    if inQuoteBlock {
      SetOfSnoc(ClosedPairs(ps), TextRange(startOfBlock, |text|));
      textRanges := textRanges + {TextRange(startOfBlock, |text|)};
    } else {
      assert QuoteRanges(text) == ClosedPairs(ps) + [];
    }
  }

  /** Scanning one more character adds its offset when it is a quotation mark. */
  lemma {:induction false} QuotePositionsStep(text: string, i: nat)
    requires i < |text|
    ensures QuotePositions(text[..i + 1]) == QuotePositions(text[..i]) + (if IsQuotationMark(text[i]) then [i] else [])
  {
    assert text[..i + 1][..i] == text[..i];
  }

  /**
   * One more mark: one that opens a quote adds no closed pair, one that
   * closes a quote adds the pair from the open mark to just after it.
   */
  lemma {:induction false} ClosedPairsSnoc(ps: seq<nat>, x: nat)
    ensures ClosedPairs(ps + [x]) ==
      ClosedPairs(ps) + (if |ps| % 2 == 1 then [TextRange(ps[|ps| - 1], x + 1)] else [])
    decreases |ps|
  {
    var qs := ps + [x];
    if |ps| >= 2 {
      var rest := ps[2..];
      var head := [TextRange(ps[0], ps[1] + 1)];
      var tail := if |ps| % 2 == 1 then [TextRange(ps[|ps| - 1], x + 1)] else [];
      assert qs[2..] == rest + [x];
      ClosedPairsSnoc(rest, x);
      assert |rest| % 2 == |ps| % 2 && (|rest| % 2 == 1 ==> rest[|rest| - 1] == ps[|ps| - 1]);
      assert ClosedPairs(qs) == head + (ClosedPairs(rest) + tail);
      assert head + (ClosedPairs(rest) + tail) == (head + ClosedPairs(rest)) + tail;
    } else if |ps| == 1 {
      assert qs[2..] == [];
    }
  }

  lemma {:induction false} SetOfSnoc<T>(s: seq<T>, x: T)
    ensures SetOf(s + [x]) == SetOf(s) + {x}
  {
  }

  /** What the constructor establishes: the quoted ranges are those of the paragraph's own text. */
  predicate QuotesMarked(p: ExtractedParagraph)
  {
    p.quoted == SetOf(QuoteRanges(p.text))
  }

  /** `new ExtractedParagraph(text, type, formatting)`: quoted ranges come from the text it is given. */
  method NewExtractedParagraph(text: string, ptype: ParagraphType, formatting: Formatting) returns (p: ExtractedParagraph)
    ensures p.text == text && p.ptype == ptype && p.formatting == formatting
    ensures p.quoted == SetOf(QuoteRanges(text))
    ensures QuotesMarked(p)
  {
    var quoted := DetermineQuotedText(text);
    p := ExtractedParagraph(text, ptype, formatting, quoted);
  }

  // ---------------------------------------------------------------------
  // Properties of the quoted ranges
  // ---------------------------------------------------------------------

  predicate StrictlyIncreasing(ps: seq<nat>)
  {
    forall i, j :: 0 <= i < j < |ps| ==> ps[i] < ps[j]
  }

  /** QuotePositions lists exactly the offsets of quotation marks, increasing and inside the text. */
  lemma {:induction false} QuotePositionsSpec(text: string)
    ensures StrictlyIncreasing(QuotePositions(text))
    ensures forall i :: 0 <= i < |QuotePositions(text)| ==> QuotePositions(text)[i] < |text|
    ensures forall i :: 0 <= i < |QuotePositions(text)| ==> IsQuotationMark(text[QuotePositions(text)[i]])
    ensures forall k :: 0 <= k < |text| && IsQuotationMark(text[k]) ==> k in QuotePositions(text)
  {
    if text != [] {
      var n := |text| - 1;
      var init := text[..n];
      var ps0 := QuotePositions(init);
      QuotePositionsSpec(init);
      if IsQuotationMark(text[n]) {
        QuotePositionsSnoc(ps0, n, init, text);
      } else {
        assert QuotePositions(text) == ps0;
        forall i | 0 <= i < |ps0| ensures IsQuotationMark(text[ps0[i]]) {
          assert text[ps0[i]] == init[ps0[i]];
        }
        forall k | 0 <= k < |text| && IsQuotationMark(text[k]) ensures k in ps0 {
          assert k < n && text[k] == init[k];
        }
      }
    }
  }

  lemma {:induction false} QuotePositionsSnoc(ps0: seq<nat>, n: nat, init: string, text: string)
    requires |text| == n + 1 && init == text[..n] && IsQuotationMark(text[n])
    requires ps0 == QuotePositions(init)
    requires StrictlyIncreasing(ps0)
    requires forall i :: 0 <= i < |ps0| ==> ps0[i] < n && IsQuotationMark(init[ps0[i]])
    requires forall k :: 0 <= k < n && IsQuotationMark(init[k]) ==> k in ps0
    ensures StrictlyIncreasing(QuotePositions(text))
    ensures forall i :: 0 <= i < |QuotePositions(text)| ==> QuotePositions(text)[i] < |text|
    ensures forall i :: 0 <= i < |QuotePositions(text)| ==> IsQuotationMark(text[QuotePositions(text)[i]])
    ensures forall k :: 0 <= k < |text| && IsQuotationMark(text[k]) ==> k in QuotePositions(text)
  {
    var ps := ps0 + [n];
    assert QuotePositions(text) == ps;
    forall i | 0 <= i < |ps| ensures IsQuotationMark(text[ps[i]]) {
      if i < |ps0| {
        assert text[ps0[i]] == init[ps0[i]];
      }
    }
    forall k | 0 <= k < |text| && IsQuotationMark(text[k]) ensures k in ps {
      if k < n {
        assert text[k] == init[k];
      }
    }
  }

  /** The m-th closed pair is [ps[2m], ps[2m+1] + 1). */
  lemma {:induction false} ClosedPairsAt(ps: seq<nat>)
    ensures |ClosedPairs(ps)| == |ps| / 2
    ensures forall m :: 0 <= m < |ps| / 2 ==> ClosedPairs(ps)[m] == TextRange(ps[2 * m], ps[2 * m + 1] + 1)
    decreases |ps|
  {
    if |ps| >= 2 {
      var rest := ps[2..];
      ClosedPairsAt(rest);
      forall m | 1 <= m < |ps| / 2 ensures ClosedPairs(ps)[m] == TextRange(ps[2 * m], ps[2 * m + 1] + 1) {
        assert ClosedPairs(ps)[m] == ClosedPairs(rest)[m - 1];
        assert rest[2 * (m - 1)] == ps[2 * m] && rest[2 * (m - 1) + 1] == ps[2 * m + 1];
      }
    }
  }

  /** The quoted ranges written out over the quote offsets. */
  lemma {:induction false} QuoteRangesForm(text: string)
    ensures |QuoteRanges(text)| == (|QuotePositions(text)| + 1) / 2
    ensures forall m :: 0 <= m < |QuotePositions(text)| / 2 ==>
      QuoteRanges(text)[m] == TextRange(QuotePositions(text)[2 * m], QuotePositions(text)[2 * m + 1] + 1)
    ensures |QuotePositions(text)| % 2 == 1 ==>
      QuoteRanges(text)[|QuotePositions(text)| / 2] == TextRange(QuotePositions(text)[|QuotePositions(text)| - 1], |text|)
  {
    ClosedPairsAt(QuotePositions(text));
  }

  /** The pairing of an increasing sequence of offsets below `len` gives ordered, non-empty ranges. */
  lemma {:induction false} PairRanges(ps: seq<nat>, len: nat, qr: seq<TextRange>)
    requires StrictlyIncreasing(ps)
    requires forall i :: 0 <= i < |ps| ==> ps[i] < len
    requires |qr| == (|ps| + 1) / 2
    requires forall m :: 0 <= m < |ps| / 2 ==> qr[m] == TextRange(ps[2 * m], ps[2 * m + 1] + 1)
    requires |ps| % 2 == 1 ==> qr[|ps| / 2] == TextRange(ps[|ps| - 1], len)
    ensures forall i :: 0 <= i < |qr| ==>
      WellFormed(qr[i]) && Length(qr[i]) > 0 && qr[i].end <= len && qr[i].start in ps
    ensures forall i, j :: 0 <= i < j < |qr| ==> qr[i].end <= qr[j].start
    ensures forall i :: 0 <= i < |ps| / 2 ==> qr[i].end - 1 in ps
  {
    var n := |ps| / 2;
    forall i | 0 <= i < |qr|
      ensures WellFormed(qr[i]) && Length(qr[i]) > 0 && qr[i].end <= len && qr[i].start in ps
    {
      if i < n {
        assert ps[2 * i] < ps[2 * i + 1];
      }
    }
    forall i, j | 0 <= i < j < |qr| ensures qr[i].end <= qr[j].start {
      assert ps[2 * i + 1] < ps[2 * j];
    }
    forall i | 0 <= i < n ensures qr[i].end - 1 in ps {
      assert qr[i].end - 1 == ps[2 * i + 1];
    }
  }

  /**
   * There are ⌈#marks / 2⌉ quoted ranges. In order, they are well-formed,
   * non-empty, disjoint and inside [0, |text|); each starts at a quotation
   * mark and each closed one ends just after one.
   */
  lemma {:induction false} QuoteRangesShape(text: string)
    ensures |QuoteRanges(text)| == (|QuotePositions(text)| + 1) / 2
    ensures forall i :: 0 <= i < |QuoteRanges(text)| ==>
      WellFormed(QuoteRanges(text)[i]) && Length(QuoteRanges(text)[i]) > 0 && QuoteRanges(text)[i].end <= |text|
      && IsQuotationMark(text[QuoteRanges(text)[i].start])
    ensures forall i, j :: 0 <= i < j < |QuoteRanges(text)| ==> QuoteRanges(text)[i].end <= QuoteRanges(text)[j].start
    ensures forall i :: 0 <= i < |QuotePositions(text)| / 2 ==>
      0 < QuoteRanges(text)[i].end <= |text| && IsQuotationMark(text[QuoteRanges(text)[i].end - 1])
  {
    QuotePositionsSpec(text);
    QuoteRangesForm(text);
    PairRanges(QuotePositions(text), |text|, QuoteRanges(text));
  }

  /** No quotation mark lies strictly inside a quoted range. */
  lemma {:induction false} NoMarkInsideQuote(text: string, i: nat, k: int)
    requires i < |QuoteRanges(text)|
    requires QuoteRanges(text)[i].start < k < QuoteRanges(text)[i].end - 1
    ensures 0 <= k < |text| && !IsQuotationMark(text[k])
  {
    var ps := QuotePositions(text);
    QuotePositionsSpec(text);
    QuoteRangesForm(text);
    var n := |ps| / 2;
    if IsQuotationMark(text[k]) {
      var t :| 0 <= t < |ps| && ps[t] == k;
    }
  }

  /** A sequence without repeats has as many elements as its set. */
  lemma {:induction false} DistinctSetSize<T>(s: seq<T>)
    requires forall i, j :: 0 <= i < j < |s| ==> s[i] != s[j]
    ensures |SetOf(s)| == |s|
  {
    if s != [] {
      var init := s[..|s| - 1];
      DistinctSetSize(init);
      assert SetOf(s) == SetOf(init) + {s[|s| - 1]};
      assert s[|s| - 1] !in SetOf(init);
    }
  }

  /** The quoted set of a paragraph holds exactly ⌈#marks / 2⌉ ranges; without marks it is empty. */
  lemma {:induction false} QuotedSetSize(text: string)
    ensures |SetOf(QuoteRanges(text))| == (|QuotePositions(text)| + 1) / 2
    ensures (forall k :: 0 <= k < |text| ==> !IsQuotationMark(text[k])) ==> SetOf(QuoteRanges(text)) == {}
  {
    QuoteRangesShape(text);
    QuotePositionsSpec(text);
    var qr := QuoteRanges(text);
    forall i, j | 0 <= i < j < |qr| ensures qr[i] != qr[j] {
      assert qr[i].start < qr[i].end <= qr[j].start;
    }
    DistinctSetSize(qr);
  }

  /** The marks of a concrete paragraph with one closed quote, at 2 and 4. */
  lemma {:induction false} ClosedQuotePositions(s: string)
    requires s == "a \"b\" c"
    ensures QuotePositions(s) == [2, 4]
  {
    assert s[..|s| - 1] == "a \"b\" " && "a \"b\" "[..5] == "a \"b\"";
    assert "a \"b\""[..4] == "a \"b" && "a \"b"[..3] == "a \"" && "a \""[..2] == "a ";
    assert "a "[..1] == "a" && "a"[..0] == [];
  }

  /** A concrete paragraph with one closed quote: one range covering both marks. */
  lemma {:induction false} ClosedQuoteExample(s: string)
    requires s == "a \"b\" c"
    ensures QuoteRanges(s) == [TextRange(2, 5)]
  {
    ClosedQuotePositions(s);
    var ps: seq<nat> := [2, 4];
    assert ps[2..] == [];
  }

  /** A concrete paragraph whose quote is left open to the end. */
  lemma {:induction false} OpenQuoteExample(t: string)
    requires t == "x \U{201C}y"
    ensures QuoteRanges(t) == [TextRange(2, 4)]
  {
    assert QuotePositions(t) == [2] by {
      assert t[..3] == "x \U{201C}" && "x \U{201C}"[..2] == "x ";
      assert "x "[..1] == "x" && "x"[..0] == [];
    }
  }
}
