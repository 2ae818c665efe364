# Story Inspector, modelled in Dafny

Story Inspector reads a manuscript from a Word (docx) document and builds a
story tree from it. Every node of the tree is addressed by half-open
character ranges of the story's text: story → chapter → scene → paragraph →
sentence → token. Configurable analyzers then run over that tree and attach
comments to ranges of the text. A report groups analyzers into sections and
writes a summary of their results. Finally the report is written back into
the original document: the summary goes in front of the story, and each
comment is spliced in as a Word comment around the text it is about.

This project models the core of that pipeline and proves what each step
promises. One module per concern:

- `TextRanges` (text_ranges.dfy): ranges, containment, intersection, translation and ordering.
- `StoryTree` (story_tree.dfy): the node types, the tiling of a node's range by its children, and the parent links.
- `ExtractedDocuments` (extracted_document.dfy), `DocXExtraction` (docx_extractor.dfy): extracting paragraphs, with their formatting and quote ranges, from the docx content tree, and rejecting documents that already carry revision data.
- `StoryParsing` (story_parsing.dfy), `StoryParsingTheorems` (story_parsing_theorems.dfy): the structural parser (title, chapters, scene breaks, paragraphs, sentences, tokens) and what it guarantees about the tree it builds.
- `Analysis` (analysis.dfy), `Validation` (validation.dfy): analyzer types, specifications, parameter validation, creation results, comments and analyzer results.
- `AnalyzerTypeRegistry` (analyzer_type_registry.dfy): the registry of analyzer types by id and version.
- `CustomAnalyzerIds` (custom_analyzer_ids.dfy), `SectionNaming` (section_naming.dfy): unique file ids for saved analyzers and unique names for new report sections.
- `Reports` (reports.dfy), `Summaries` (summaries.dfy), `ReportWriting` (report_writing.dfy): reports, their consistency with their specification, and the summary components and the calls they make on a summary writer.
- `SummaryWriting` (summary_writer.dfy): the docx summary writer as a state machine.
- `CommentIds` (comment_ids.dfy), `CommentSplitting` (comment_splitting.dfy), `Transcription` (transcription.dfy): comment ids, splitting runs and text at comment boundaries, and inserting the comment markers into the paragraphs.
- `Characters` (characters.dfy), `Wrappers` (wrappers.dfy): character classes, string helpers, and `Option`/`Result`, with Java's exceptions as `Result` errors.

Java exceptions become the `Err` case of a `Result` with the exception's kind.
Objects the source compares by identity are Dafny classes whose fields never
change: analyzer types, analyzers and parameter specs. Objects the source
updates in place are classes with `modifies` clauses: the summary writer,
the parent links and the registry.

## Model

| member | source | states |
|---|---|---|
| TextRanges.Make | src/main/java/com/story_inspector/story/TextRange.java:29-35 | construction succeeds exactly when 0 <= start <= end, keeping both ends; otherwise IllegalArgument |
| TextRanges.Length | src/main/java/com/story_inspector/story/TextRange.java:60-62 | the length of a well-formed range is non-negative, and zero exactly for an empty range |
| TextRanges.CoveredText | src/main/java/com/story_inspector/story/TextRange.java:104-106 | the substring is defined exactly when the range lies inside the text, and is then the characters of the range |
| TextRanges.Translate | src/main/java/com/story_inspector/story/TextRange.java:116-118 | translating succeeds exactly when the new start is not negative, and shifts both ends by k |
| TextRanges.CompareTo | src/main/java/com/story_inspector/story/TextRange.java:153-155 | the comparison is -1, 0 or 1; 0 exactly for equal ranges; negative exactly when (start, end) is lexicographically smaller |
| TextRanges.IntersectsSymmetric | src/main/java/com/story_inspector/story/TextRange.java:93-95 | intersection does not depend on argument order |
| TextRanges.IntersectsIffSharedPosition | src/main/java/com/story_inspector/story/TextRange.java:71-95 | two non-empty ranges intersect exactly when they share a position; an empty range intersects b exactly when its start lies in b |
| TextRanges.AdjacentRangesIntersection | src/main/java/com/story_inspector/story/TextRange.java:93-95 | ranges that meet at one offset, like [0,5) and [5,10), intersect only when the first is empty and the second is not |
| TextRanges.ContainedIntersects | src/main/java/com/story_inspector/story/TextRange.java:82-95 | a non-empty range inside another intersects it |
| TextRanges.TranslateRoundTrip | src/main/java/com/story_inspector/story/TextRange.java:116-118 | translate(k) then translate(-k) gives back the original range |
| TextRanges.TranslatePreservesIntersects | src/main/java/com/story_inspector/story/TextRange.java:116-118 | translating two ranges by the same distance keeps whether they intersect |
| TextRanges.CompareToIsTotalOrder | src/main/java/com/story_inspector/story/TextRange.java:153-155 | compareTo is antisymmetric and transitive |
| TextRanges.EqualsIsIdentity | src/main/java/com/story_inspector/story/TextRange.java:139-145 | equals, defined through compareTo, holds exactly when start and end agree |
| TextRanges.IntersectsRangeSetUnion | src/main/java/com/story_inspector/story/TextRange.java:129-131 | intersectsRangeSet over a union is the disjunction over its parts, and is false for the empty set |
| StoryTree.ValidateChildren | src/main/java/com/story_inspector/story/BaseParentalTextNode.java:107-116 | the loop accepts exactly the child lists whose ranges tile the node's range: the first starts at the node's start, each starts where the previous ended, the last ends at the node's end |
| StoryTree.TilesIff | src/main/java/com/story_inspector/story/BaseParentalTextNode.java:107-116 | an empty list tiles exactly an empty range; a non-empty one tiles [from, to) exactly when it starts at from, ends at to and has no gap or overlap between neighbours |
| StoryTree.TilesContained | src/main/java/com/story_inspector/story/BaseParentalTextNode.java:107-116 | the children of a tiling lie inside the parent, in order and disjoint, and their lengths add up to the parent's length |
| StoryTree.TilingExamples | src/main/java/com/story_inspector/story/BaseParentalTextNode.java:107-116 | an exact tiling is accepted; swapped children, a gap, an overlap, a late first start, an early last end and a range mismatch are rejected; no children tile only an empty range |
| StoryTree.ChildContained | src/main/java/com/story_inspector/story/BaseParentalTextNode.java:107-116 | every child of a valid node lies within its parent's range |
| StoryTree.NewStory | src/main/java/com/story_inspector/story/StoryImpl.java:27-34 | a story is built exactly when the chapters tile [0, length of text); it keeps text, title and chapters, and is a valid tree when its chapters are |
| StoryTree.NewChapter | src/main/java/com/story_inspector/story/ChapterImpl.java:24-30 | a chapter is built exactly when its scenes tile its range, keeping range, title and scenes; otherwise IllegalArgument |
| StoryTree.NewScene | src/main/java/com/story_inspector/story/SceneImpl.java:21-26 | a scene is built exactly when its paragraphs tile its range; otherwise IllegalArgument |
| StoryTree.NewParagraph | src/main/java/com/story_inspector/story/ParagraphImpl.java:21-26 | a paragraph is built exactly when its sentences tile its range; otherwise IllegalArgument |
| StoryTree.NewSentence | src/main/java/com/story_inspector/story/SentenceImpl.java:21-26 | a sentence is built exactly when its tokens tile its range; otherwise IllegalArgument |
| StoryTree.IsFragment | src/main/java/com/story_inspector/story/SentenceImpl.java:29-32 | always fails with UnsupportedOperation |
| StoryTree.IsQuestion | src/main/java/com/story_inspector/story/SentenceImpl.java:35-38 | always fails with UnsupportedOperation |
| StoryTree.FirstAlnumSpec | src/main/java/com/story_inspector/story/TokenImpl.java:68-74 | the forward scan stops at the first letter or digit, and no earlier character is one |
| StoryTree.LastAlnumEndSpec | src/main/java/com/story_inspector/story/TokenImpl.java:76-82 | the backward scan stops just after the last letter or digit, and no later character is one |
| StoryTree.ExtractWordCharacterization | src/main/java/com/story_inspector/story/TokenImpl.java:67-88 | there is no word exactly when the text has no letter or digit; otherwise the word is the text from its first to its last letter or digit, starting and ending with one |
| StoryTree.ExtractWordScan | src/main/java/com/story_inspector/story/TokenImpl.java:67-88 | the two loops with their breaks compute that word |
| StoryTree.NewToken | src/main/java/com/story_inspector/story/TokenImpl.java:44-59 | a token keeps range, tag, stem and flags as given (the stem even for a non-word); isWord holds exactly when a word was found; allCaps exactly when the word has no lower-case and at least one alphabetic character |
| StoryTree.WordyExample | src/main/java/com/story_inspector/story/TokenImpl.java:67-88 | the text "Wordy," in quotes followed by a space gives the word Wordy |
| StoryTree.SentenceEndExample | src/main/java/com/story_inspector/story/TokenImpl.java:55-88 | ". " has no word; "This " gives This, which is not all caps; NASA is all caps and 42 is not |
| StoryTree.QueryBelow | src/main/java/com/story_inspector/story/BaseParentalTextNode.java:84-92 | asked for a level below the node, the query returns, in document order, the descendants at that level whose ranges intersect the range |
| StoryTree.QueryChildrenBelow | src/main/java/com/story_inspector/story/BaseParentalTextNode.java:89-90 | the concatenation over children i, i+1, ... is the filtered list of their descendants at that level |
| StoryTree.QueryAtOrAbove | src/main/java/com/story_inspector/story/BaseParentalTextNode.java:84-92 | asked for a level at or above the node, the query fails with IllegalArgument exactly when the subtree reaches a token, and is otherwise empty |
| StoryTree.QueryChildrenAtOrAbove | src/main/java/com/story_inspector/story/BaseParentalTextNode.java:89-90 | the concatenation over children i, i+1, ... fails exactly when one of them has a token below it |
| StoryTree.DescendantsContained | src/main/java/com/story_inspector/story/BaseParentalTextNode.java:84-92 | every descendant of a valid node lies within its range |
| StoryTree.ChildrenAtLevelKeepsNonEmpty | src/main/java/com/story_inspector/story/TextNode.java:84-86 | getChildrenAtLevel below a valid node succeeds and contains every non-empty descendant at that level |
| StoryTree.DescendantsLevel | src/main/java/com/story_inspector/story/BaseParentalTextNode.java:37-43 | every descendant of a valid node is itself valid |
| StoryTree.NodeAtParent | src/main/java/com/story_inspector/story/BaseParentalTextNode.java:60-63 | the node at a non-empty path is a child of the node at the path without its last index |
| StoryTree.NodeAtValid | src/main/java/com/story_inspector/story/BaseParentalTextNode.java:37-43 | every node reachable in a valid tree is valid |
| StoryTree.ParentOfChild | src/main/java/com/story_inspector/story/StoryImpl.java:31-33 | the parent of each child is the node listing it, and the story has no parent |
| StoryTree.ChildLinksSpec | src/main/java/com/story_inspector/story/SceneImpl.java:23-25 | a constructor loop links exactly the paths of the node's children, each to the node |
| StoryTree.ParentLinks.constructor | src/main/java/com/story_inspector/story/BaseParentalTextNode.java:100-102 | no parent links before any node is built |
| StoryTree.ParentLinks.AdoptChildren | src/main/java/com/story_inspector/story/ParagraphImpl.java:23-25 | the setParent loop adds one link per child to the node and keeps all other links |
| StoryTree.ChildLinksAgreeWithParentOf | src/main/java/com/story_inspector/story/BaseParentalTextNode.java:100-102 | the links the constructor loops record agree with the parent relation of the finished tree |
| StoryTree.SelectionIsStorySubstring | src/main/java/com/story_inspector/story/BaseParentalTextNode.java:70-74 | in a valid story, a node's selection of a range inside it is the story's text over that range, a range outside it is rejected, the story itself takes the substring unchecked, and getText of any node is the story substring over the node's range |
| Characters.LowerCase | src/main/java/com/story_inspector/ioProcessing/docx/DocXDocumentExtractor.java:222 | lower-casing keeps the length and maps every character through Character.toLowerCase, which leaves no upper-case letter |
| Characters.ContainsSubstringIff | src/main/java/com/story_inspector/ioProcessing/docx/DocXDocumentExtractor.java:222 | String.contains holds exactly when the part occurs at some offset of the text |
| Characters.TrimSpec | src/main/java/com/story_inspector/ioProcessing/OpenNLPStoryParser.java:176 | trim returns a slice of the text with only characters up to ' ' cut on either side, and a non-empty result starts and ends above ' ' |
| Characters.NatToString | src/main/java/com/story_inspector/controllers/ReportSpecEditPaneController.java:237 | a number prints as at least one decimal digit and nothing else |
| Characters.NatToStringInjective | src/main/java/com/story_inspector/controllers/ReportSpecEditPaneController.java:237 | different numbers print differently |
| ExtractedDocuments.DetermineQuotedText | src/main/java/com/story_inspector/ioProcessing/ExtractedDocument.java:84-110 | the scan with its in-quote flag returns exactly the set of quote ranges: each pair of consecutive marks, then a final open mark to the end of the text |
| ExtractedDocuments.QuotePositionsStep | src/main/java/com/story_inspector/ioProcessing/ExtractedDocument.java:89-90 | scanning one more character adds its offset exactly when it is a quotation mark |
| ExtractedDocuments.ClosedPairsSnoc | src/main/java/com/story_inspector/ioProcessing/ExtractedDocument.java:91-98 | a mark after an even number of marks opens a block; one after an odd number closes the open block, including both marks |
| ExtractedDocuments.NewExtractedParagraph | src/main/java/com/story_inspector/ioProcessing/ExtractedDocument.java:75-82 | the paragraph keeps its text, type and formatting, and its quoted ranges are computed from that same text |
| ExtractedDocuments.QuotePositionsSpec | src/main/java/com/story_inspector/ioProcessing/ExtractedDocument.java:89-114 | the recorded offsets are increasing, inside the text, and are exactly the offsets of the three quotation marks |
| ExtractedDocuments.ClosedPairsAt | src/main/java/com/story_inspector/ioProcessing/ExtractedDocument.java:91-98 | the m-th closed block runs from mark 2m to just after mark 2m+1 |
| ExtractedDocuments.QuoteRangesForm | src/main/java/com/story_inspector/ioProcessing/ExtractedDocument.java:89-107 | there are ⌈marks / 2⌉ ranges: closed pairs [open, close + 1), and with an odd count a last range [last mark, end of text) |
| ExtractedDocuments.PairRanges | src/main/java/com/story_inspector/ioProcessing/ExtractedDocument.java:89-107 | pairing increasing offsets below the length gives non-empty, ordered, disjoint ranges inside the text |
| ExtractedDocuments.QuoteRangesShape | src/main/java/com/story_inspector/ioProcessing/ExtractedDocument.java:84-110 | every quoted range is non-empty, lies in the text and starts at a mark; closed ones end just after a mark; the ranges are disjoint and in order |
| ExtractedDocuments.NoMarkInsideQuote | src/main/java/com/story_inspector/ioProcessing/ExtractedDocument.java:89-100 | no quotation mark lies strictly inside a quoted range |
| ExtractedDocuments.QuotedSetSize | src/main/java/com/story_inspector/ioProcessing/ExtractedDocument.java:84-110 | the quoted set holds exactly ⌈marks / 2⌉ ranges, and none when the text has no quotation mark |
| ExtractedDocuments.ClosedQuotePositions | src/main/java/com/story_inspector/ioProcessing/ExtractedDocument.java:102-107 | the straight quote marks of `a "b" c` lie at offsets 2 and 4 |
| ExtractedDocuments.ClosedQuoteExample | src/main/java/com/story_inspector/ioProcessing/ExtractedDocument.java:102-107 | a closed straight-quoted word gives one range from its opening mark to just past its closing mark |
| ExtractedDocuments.OpenQuoteExample | src/main/java/com/story_inspector/ioProcessing/ExtractedDocument.java:102-107 | an unclosed curly quote gives a range that runs from the mark to the end of the paragraph |
| SectionNaming.CandidateInjective | src/main/java/com/story_inspector/controllers/ReportSpecEditPaneController.java:237 | candidate names differ for different numbers and are never the bare base name |
| SectionNaming.CandidatesSize | src/main/java/com/story_inspector/controllers/ReportSpecEditPaneController.java:236-240 | the candidates 2 .. n+1 are n distinct names, none of them the base name |
| SectionNaming.CandidatesStep | src/main/java/com/story_inspector/controllers/ReportSpecEditPaneController.java:236-240 | each loop turn tries a name not tried before |
| SectionNaming.SomeCandidateFree | src/main/java/com/story_inspector/controllers/ReportSpecEditPaneController.java:241-242 | when the base name is taken, some candidate 2 .. n+1 is free, so the throw cannot be reached |
| SectionNaming.GenerateNewSectionName | src/main/java/com/story_inspector/controllers/ReportSpecEditPaneController.java:227-243 | always succeeds with a name no section has: the base name when it is free, otherwise the smallest free candidate numbered from 2 |
| CustomAnalyzerIds.Underscored | src/main/java/com/story_inspector/controllers/analyzerRegistry/DirectoryBasedCustomAnalyzerRegistry.java:115-118 | a kept character becomes file-friendly; whitespace becomes '_' and a letter, digit or '_' stays as it is |
| CustomAnalyzerIds.BaseName | src/main/java/com/story_inspector/controllers/analyzerRegistry/DirectoryBasedCustomAnalyzerRegistry.java:115-118 | the base name is no longer than the analyzer's name and consists of letters, digits and '_' only |
| CustomAnalyzerIds.BaseNameAppend | src/main/java/com/story_inspector/controllers/analyzerRegistry/DirectoryBasedCustomAnalyzerRegistry.java:115-118 | sanitising works character by character: the base name of a concatenation is the concatenation of the base names |
| CustomAnalyzerIds.BaseNameOfFriendly | src/main/java/com/story_inspector/controllers/analyzerRegistry/DirectoryBasedCustomAnalyzerRegistry.java:115-118 | a name of letters, digits and '_' is its own base name |
| CustomAnalyzerIds.BaseNameIdempotent | src/main/java/com/story_inspector/controllers/analyzerRegistry/DirectoryBasedCustomAnalyzerRegistry.java:115-118 | sanitising twice is the same as sanitising once |
| CustomAnalyzerIds.IdFromBaseName | src/main/java/com/story_inspector/controllers/analyzerRegistry/DirectoryBasedCustomAnalyzerRegistry.java:129-133 | the id starts with the base name, is longer than it and ends with ".sia" |
| CustomAnalyzerIds.IdInjective | src/main/java/com/story_inspector/controllers/analyzerRegistry/DirectoryBasedCustomAnalyzerRegistry.java:129-133 | two attempts give the same id exactly when they are the same attempt |
| CustomAnalyzerIds.IdListed | src/main/java/com/story_inspector/controllers/analyzerRegistry/DirectoryBasedCustomAnalyzerRegistry.java:96 | every generated id passes the registry's listing filter: lower-cased it ends with ".sia" |
| CustomAnalyzerIds.LowerCaseKeepsSia | src/main/java/com/story_inspector/controllers/analyzerRegistry/DirectoryBasedCustomAnalyzerRegistry.java:96 | lower-casing a name ending in ".sia" keeps that ending |
| CustomAnalyzerIds.GenerateIdForAnalyzer | src/main/java/com/story_inspector/controllers/analyzerRegistry/DirectoryBasedCustomAnalyzerRegistry.java:114-127 | the result is the id of the first attempt below 100000 whose file does not exist; it fails with a runtime error exactly when all 100000 ids exist |
| DocXExtraction.ContainsNodeTypesAsWrittenNeverHolds | src/main/java/com/story_inspector/ioProcessing/docx/DocXDocumentExtractor.java:170-179 | as written, the check answers false for every tree: a matching node returns false and a container only ORs its children's answers |
| DocXExtraction.ContainsNodeTypesIff | src/main/java/com/story_inspector/ioProcessing/docx/DocXDocumentExtractor.java:167-179 | the corrected check holds exactly when some element kind in the tree is deleted text, a tracked change or a comment range marker |
| DocXExtraction.ContainsAllIff | src/main/java/com/story_inspector/ioProcessing/docx/DocXDocumentExtractor.java:176 | some child passes the corrected check exactly when a revision kind occurs among the children's trees |
| DocXExtraction.ValidationAsWrittenOnlySeesComments | src/main/java/com/story_inspector/ioProcessing/docx/DocXDocumentExtractor.java:154-165 | as written, validation rejects a document exactly when its comments part is non-empty, whatever its body holds |
| DocXExtraction.DeletedTextSlipsThrough | src/main/java/com/story_inspector/ioProcessing/docx/DocXDocumentExtractor.java:160-164 | a paragraph holding deleted text passes the validation as written although it contains revision data |
| DocXExtraction.ValidateNoRevisionData | src/main/java/com/story_inspector/ioProcessing/docx/DocXDocumentExtractor.java:154-165 | with the corrected check, validation fails with INCLUDES_REVISION_DATA exactly when there are comments or some body element contains a revision node |
| DocXExtraction.PieceRangeSnoc | src/main/java/com/story_inspector/ioProcessing/docx/DocXDocumentExtractor.java:273 | appending a text element leaves the ranges of the earlier ones unchanged |
| DocXExtraction.JoinedSnoc | src/main/java/com/story_inspector/ioProcessing/docx/DocXDocumentExtractor.java:275 | appending an element appends its text to the paragraph text |
| DocXExtraction.FormatRangesSnoc | src/main/java/com/story_inspector/ioProcessing/docx/DocXDocumentExtractor.java:276 | appending an element adds its range [old length, new length) under a formatting exactly when its run has that formatting |
| DocXExtraction.FormattingOfSnoc | src/main/java/com/story_inspector/ioProcessing/docx/DocXDocumentExtractor.java:273-276 | one text element appends its text and records its range under each formatting of its run |
| DocXExtraction.ExtractFormattingData | src/main/java/com/story_inspector/ioProcessing/docx/DocXDocumentExtractor.java:299-318 | the element's range is added to the bold, italics and underline sets exactly when the run has that formatting, and nothing else changes |
| DocXExtraction.ExtractRunText | src/main/java/com/story_inspector/ioProcessing/docx/DocXDocumentExtractor.java:270-278 | the inner loop appends the texts of the run's text elements, in order, and records their ranges |
| DocXExtraction.ExtractElementText | src/main/java/com/story_inspector/ioProcessing/docx/DocXDocumentExtractor.java:271-277 | a text element appends its text and its range; any other child of a run changes nothing |
| DocXExtraction.RunPiecesSnoc | src/main/java/com/story_inspector/ioProcessing/docx/DocXDocumentExtractor.java:270 | one more run child contributes its text element, if any, after those of the earlier children |
| DocXExtraction.ExtractTextFromParagraph | src/main/java/com/story_inspector/ioProcessing/docx/DocXDocumentExtractor.java:265-281 | the paragraph text is the concatenation of the text elements of its runs in order, and each formatting set holds exactly the ranges of the elements whose run has it |
| DocXExtraction.JoinedAppend | src/main/java/com/story_inspector/ioProcessing/docx/DocXDocumentExtractor.java:275 | the joined text of two lists of elements is the concatenation of their joined texts |
| DocXExtraction.PieceRangesTile | src/main/java/com/story_inspector/ioProcessing/docx/DocXDocumentExtractor.java:273 | the ranges of the text elements tile [0, length of the paragraph text), with no gap or overlap |
| DocXExtraction.PieceRangeCoversPiece | src/main/java/com/story_inspector/ioProcessing/docx/DocXDocumentExtractor.java:273-275 | each element's range lies in the paragraph text and covers exactly that element's text |
| DocXExtraction.FormatRangesSound | src/main/java/com/story_inspector/ioProcessing/docx/DocXDocumentExtractor.java:276 | every range recorded under a formatting is the range of an element whose run has it |
| DocXExtraction.FormatRangesComplete | src/main/java/com/story_inspector/ioProcessing/docx/DocXDocumentExtractor.java:276 | the range of every element whose run has a formatting is recorded under it |
| DocXExtraction.FormatRangesIff | src/main/java/com/story_inspector/ioProcessing/docx/DocXDocumentExtractor.java:276 | a range is recorded under a formatting exactly when it is the range of an element whose run has that formatting |
| DocXExtraction.FormattedRangesMeaning | src/main/java/com/story_inspector/ioProcessing/docx/DocXDocumentExtractor.java:265-318 | every formatted range lies in the paragraph text and covers the text of an element with that formatting, and each such element's range is recorded |
| DocXExtraction.Priority | src/main/java/com/story_inspector/ioProcessing/docx/DocXDocumentExtractor.java:64-81 | the ten stages have priorities from 0 to 9 |
| DocXExtraction.StageHolder.constructor | src/main/java/com/story_inspector/ioProcessing/docx/DocXDocumentExtractor.java:89-95 | a new holder starts at NOT_STARTED |
| DocXExtraction.StageHolder.GetParagraphType | src/main/java/com/story_inspector/ioProcessing/docx/DocXDocumentExtractor.java:196-247 | the returned type and the new stage are those of the classification: blank text moves to the next blank stage, "#" is a scene break and moves to TEXT, centered text is a title, by-line or chapter title by stage, other text is contact information before the title and text after it |
| DocXExtraction.BlankNeverLowersPriority | src/main/java/com/story_inspector/ioProcessing/docx/DocXDocumentExtractor.java:198-208 | a blank paragraph moves to a blank stage and never to a lower priority |
| DocXExtraction.PastTitleStaysPastTitle | src/main/java/com/story_inspector/ioProcessing/docx/DocXDocumentExtractor.java:209-246 | past the title stage no paragraph is a title, by-line or contact information, and the stage stays past the title |
| DocXExtraction.TextParagraphIsNonEmpty | src/main/java/com/story_inspector/ioProcessing/docx/DocXDocumentExtractor.java:140 | a TEXT paragraph is not blank, so the trailing-space rule always has a last character to look at |
| DocXExtraction.BlankStaysBlankWhenTrimmed | src/main/java/com/story_inspector/ioProcessing/docx/DocXDocumentExtractor.java:198 | trimming a blank text leaves nothing |
| DocXExtraction.TitlePhaseEnds | src/main/java/com/story_inspector/ioProcessing/docx/DocXDocumentExtractor.java:216-246 | once the stage is past the title, no later paragraph of the body is a title, by-line or contact information |
| DocXExtraction.TitleStageLasts | src/main/java/com/story_inspector/ioProcessing/docx/DocXDocumentExtractor.java:216-246 | a stage past the title stays past it for the rest of the body |
| DocXExtraction.PastTitleAt | src/main/java/com/story_inspector/ioProcessing/docx/DocXDocumentExtractor.java:137 | the i-th paragraph, met past the title, is no front matter and leaves the stage past the title |
| DocXExtraction.TitleComesFirst | src/main/java/com/story_inspector/ioProcessing/docx/DocXDocumentExtractor.java:196-247 | every paragraph before a title paragraph is blank, contact information or part of the title |
| DocXExtraction.FrontMatterStep | src/main/java/com/story_inspector/ioProcessing/docx/DocXDocumentExtractor.java:196-247 | a paragraph after which the stage is at most TITLE is blank, contact information or a title |
| DocXExtraction.EachIndexedIff | src/main/java/com/story_inspector/ioProcessing/docx/DocXDocumentExtractor.java:126-145 | the back-to-front check of the collected list holds exactly when every index satisfies it |
| DocXExtraction.ParagraphsUpToIff | src/main/java/com/story_inspector/ioProcessing/docx/DocXDocumentExtractor.java:127 | the first n body elements pass the cast exactly when each of them is a paragraph |
| DocXExtraction.ExtractParagraph | src/main/java/com/story_inspector/ioProcessing/docx/DocXDocumentExtractor.java:126-145 | one paragraph gets the text of its runs, its classified type, a trailing space when it is TEXT and does not end in one, its formatting and the quotes of its final text; the holder moves to the next stage |
| DocXExtraction.ExtractDocument | src/main/java/com/story_inspector/ioProcessing/docx/DocXDocumentExtractor.java:97-149 | as written: the call makes four progress reports (before loading, before validating, before mapping the body, at the end) and a cancelled report is TASK_CANCELED; a package that does not load is CORRUPT_DOCUMENT, one with a comments part is INCLUDES_REVISION_DATA; the result is Ok exactly when no report is cancelled, the package loads, has no comments part and every body element is a paragraph (revision nodes in the body are not seen), and is then the extracted form of every body paragraph, in order, every TEXT paragraph with text; a body element that is not a paragraph is CLASS_CAST |
| DocXExtraction.ExtractValidated | src/main/java/com/story_inspector/ioProcessing/docx/DocXDocumentExtractor.java:118-148 | after validation: a cancelled report before mapping is TASK_CANCELED; a body element that is not a paragraph is CLASS_CAST; otherwise the result, unless the final report is cancelled, is the extracted form of every body paragraph, with every TEXT paragraph non-empty |
| DocXExtraction.ExtractDocumentCorrected | src/main/java/com/story_inspector/ioProcessing/docx/DocXDocumentExtractor.java:97-149 | with the corrected validation: as above, with the same four cancellable progress reports, except that a body element containing deleted text, a tracked change or a comment range is also INCLUDES_REVISION_DATA, so Ok additionally requires a body free of revision nodes |
| DocXExtraction.ExtractParagraphs | src/main/java/com/story_inspector/ioProcessing/docx/DocXDocumentExtractor.java:126-145 | the stream succeeds exactly when every body element is a paragraph and then holds the extracted form of each one in order; otherwise ClassCast |
| DocXExtraction.MapParagraphs | src/main/java/com/story_inspector/ioProcessing/docx/DocXDocumentExtractor.java:126-145 | the stream stops at the first body element that is not a paragraph, and before it each paragraph is extracted from the element at its index with the stage all earlier paragraphs left |
| DocXExtraction.ExtractNext | src/main/java/com/story_inspector/ioProcessing/docx/DocXDocumentExtractor.java:126-145 | one element of the stream: one more paragraph, extracted from the next element, and the stage moves on as the reference says |
| DocXExtraction.EachIndexedSnoc | src/main/java/com/story_inspector/ioProcessing/docx/DocXDocumentExtractor.java:126-145 | appending a paragraph extracted from the element at the next index keeps every paragraph extracted from its own element |
| DocXExtraction.CollectedBody | src/main/java/com/story_inspector/ioProcessing/docx/DocXDocumentExtractor.java:126-145 | a full-length list of paragraphs each extracted from its element is the extraction of the body |
| StoryParsing.RangesFrom | src/main/java/com/story_inspector/ioProcessing/OpenNLPStoryParser.java:376-382 | the loop yields one well-formed range per span, or fails when a span end lies before the cursor |
| StoryParsing.SpanRanges | src/main/java/com/story_inspector/ioProcessing/OpenNLPStoryParser.java:371-391 | one range per span, each well formed, the last stretched to the end of the range |
| StoryParsing.GenerateTextRangesFromSpans | src/main/java/com/story_inspector/ioProcessing/OpenNLPStoryParser.java:371-391 | the loop and the final stretch compute exactly the span ranges, including the IndexOutOfBounds of an empty span array |
| StoryParsing.RangesFromTile | src/main/java/com/story_inspector/ioProcessing/OpenNLPStoryParser.java:376-382 | with span ends in order and not before the cursor, range k runs from the previous span's end (the cursor for the first) to span k's end, and the ranges tile that stretch |
| StoryParsing.TilesFromStretchLast | src/main/java/com/story_inspector/ioProcessing/OpenNLPStoryParser.java:385-388 | stretching the last range of a tiling to a new end gives a tiling up to that end |
| StoryParsing.SpanRangesTile | src/main/java/com/story_inspector/ioProcessing/OpenNLPStoryParser.java:371-391 | for a segmentation keeping its promise the ranges tile the whole range, one per span; gaps between spans go to the later range and the last range reaches the end |
| StoryParsing.SpanRangesWithoutSpans | src/main/java/com/story_inspector/ioProcessing/OpenNLPStoryParser.java:385 | an empty span array makes the last-range lookup throw IndexOutOfBounds |
| StoryParsing.SpanRangesExample | src/main/java/com/story_inspector/ioProcessing/OpenNLPStoryParser.java:371-391 | sentence spans [0,5) and [6,19) over [0,19) give [0,5) and [5,19): the space between them joins the second sentence |
| StoryParsing.SpansToStrings | src/main/java/com/story_inspector/ioProcessing/OpenNLPStoryParser.java:312 | the token texts are the substrings under the spans, one per span, and the call fails exactly when some span lies outside the sentence |
| StoryParsing.ConstructToken | src/main/java/com/story_inspector/ioProcessing/OpenNLPStoryParser.java:343-357 | the token is built exactly when its range does not start before the paragraph (translate fails otherwise) and keeps its story range |
| StoryParsing.ConstructTokenInfo | src/main/java/com/story_inspector/ioProcessing/OpenNLPStoryParser.java:343-357 | the token carries the given tag, the stem of its text (word or not), the extracted word, and a bold, italics, underline or quoted flag exactly when a range of that set intersects the paragraph-local token range |
| StoryParsing.TokensFrom | src/main/java/com/story_inspector/ioProcessing/OpenNLPStoryParser.java:320-324 | the token loop yields one token per range from index i on |
| StoryParsing.SentenceTokens | src/main/java/com/story_inspector/ioProcessing/OpenNLPStoryParser.java:306-325 | the tokens of a sentence are all token nodes |
| StoryParsing.GenerateTokensFromSentence | src/main/java/com/story_inspector/ioProcessing/OpenNLPStoryParser.java:306-325 | substring, tokenizer, tagger, span ranges and the token loop compute exactly the sentence's tokens, failing where one of those steps throws |
| StoryParsing.ParagraphTokenizer | src/main/java/com/story_inspector/ioProcessing/OpenNLPStoryParser.java:289-290 | the parser's own token construction yields token nodes only |
| StoryParsing.SentencesFrom | src/main/java/com/story_inspector/ioProcessing/OpenNLPStoryParser.java:289-290 | the sentence map yields one sentence node per range, in order |
| StoryParsing.GenerateSentences | src/main/java/com/story_inspector/ioProcessing/OpenNLPStoryParser.java:289-290 | the loop over the sentence ranges yields the specified sentence map |
| StoryParsing.ParagraphNode | src/main/java/com/story_inspector/ioProcessing/OpenNLPStoryParser.java:280-292 | the progress report comes first: a paragraph starting at or past the end of the story text is IllegalArgument and one whose offset the user cancels at is TaskCanceled, before any OpenNLP call; a parsed paragraph is a paragraph node over [start, start + length of its text) |
| StoryParsing.GenerateParagraphFromSource | src/main/java/com/story_inspector/ioProcessing/OpenNLPStoryParser.java:280-292 | the monitor report, the sentence detection, the span ranges and the sentence loop compute exactly the parser's paragraph for that source |
| StoryParsing.ParagraphOfSpans | src/main/java/com/story_inspector/ioProcessing/OpenNLPStoryParser.java:285-291 | the paragraph built from the detector's spans lies over the given range |
| StoryParsing.ParagraphOfRanges | src/main/java/com/story_inspector/ioProcessing/OpenNLPStoryParser.java:289-291 | the paragraph built from the sentence ranges lies over the given range |
| StoryParsing.ParagraphNodeUnfold | src/main/java/com/story_inspector/ioProcessing/OpenNLPStoryParser.java:283-291 | when the monitor accepts the offset, the paragraph is the paragraph constructor applied to the sentences of the span ranges |
| StoryParsing.ParagraphNodeSpans | src/main/java/com/story_inspector/ioProcessing/OpenNLPStoryParser.java:283-288 | when the monitor accepts the offset, the paragraph is built from the detector's spans over its own range |
| StoryParsing.ParagraphOfSpansRanges | src/main/java/com/story_inspector/ioProcessing/OpenNLPStoryParser.java:287-291 | once the span ranges are known, the paragraph is built from them |
| StoryParsing.ParserBuilder | src/main/java/com/story_inspector/ioProcessing/OpenNLPStoryParser.java:280-292 | the parser's paragraph construction is one that builds, on success, a paragraph over [start, start + length of its text) |
| StoryParsing.SentencesFromStep | src/main/java/com/story_inspector/ioProcessing/OpenNLPStoryParser.java:289-290 | the sentence map is the first sentence followed by the map over the remaining ranges |
| StoryParsing.ParagraphsFrom | src/main/java/com/story_inspector/ioProcessing/OpenNLPStoryParser.java:253-264 | one paragraph node per source paragraph of the window |
| StoryParsing.GenerateParagraphsFromParagraphSources | src/main/java/com/story_inspector/ioProcessing/OpenNLPStoryParser.java:253-264 | the loop builds each paragraph at the running offset and advances it by the paragraph's text length whatever its type |
| StoryParsing.StoryTextAppend | src/main/java/com/story_inspector/ioProcessing/OpenNLPStoryParser.java:112-116 | the story text of two lists is the concatenation of their story texts |
| StoryParsing.GenerateStoryTextFromParagraphs | src/main/java/com/story_inspector/ioProcessing/OpenNLPStoryParser.java:112-116 | the story text is the concatenation of the TEXT paragraphs' texts, in order |
| StoryParsing.StoryLengthSnoc | src/main/java/com/story_inspector/ioProcessing/OpenNLPStoryParser.java:163-165 | one more paragraph adds its length when it is TEXT and nothing otherwise |
| StoryParsing.StoryLengthIsTextLength | src/main/java/com/story_inspector/ioProcessing/OpenNLPStoryParser.java:103-106 | the offset the scene and chapter loops reach over a prefix is the length of that prefix's story text |
| StoryParsing.SkipRun | src/main/java/com/story_inspector/ioProcessing/OpenNLPStoryParser.java:151-154 | the "while the type is t" loop stops inside the window, at a paragraph of another type or at the end |
| StoryParsing.SkipRunAll | src/main/java/com/story_inspector/ioProcessing/OpenNLPStoryParser.java:210-213 | every paragraph the leading run skips has that type |
| StoryParsing.NextOf | src/main/java/com/story_inspector/ioProcessing/OpenNLPStoryParser.java:160-167 | the "while the type is not t" loop stops inside the window at a paragraph of type t or at the end, and moves forward when the first paragraph is not of type t |
| StoryParsing.NextOfAll | src/main/java/com/story_inspector/ioProcessing/OpenNLPStoryParser.java:215-223 | no paragraph before the one found has type t |
| StoryParsing.SceneAt | src/main/java/com/story_inspector/ioProcessing/OpenNLPStoryParser.java:225-231 | a built scene is a scene node |
| StoryParsing.ScenesFrom | src/main/java/com/story_inspector/ioProcessing/OpenNLPStoryParser.java:200-237 | the recursion yields scene nodes only |
| StoryParsing.ScenesFromUnfold | src/main/java/com/story_inspector/ioProcessing/OpenNLPStoryParser.java:207-236 | on a non-empty window the scenes are the first scene followed by the scenes of the rest from the first scene's end, and an error of the first stops the recursion |
| StoryParsing.ScenesFromFirst | src/main/java/com/story_inspector/ioProcessing/OpenNLPStoryParser.java:207-236 | once the first scene is built, the scenes are it followed by those of the rest of the window |
| StoryParsing.SkipSceneBreaks | src/main/java/com/story_inspector/ioProcessing/OpenNLPStoryParser.java:210-213 | the first loop stops past the leading scene breaks |
| StoryParsing.ScanToNext | src/main/java/com/story_inspector/ioProcessing/OpenNLPStoryParser.java:215-223 | the second loop stops at the next paragraph of that type and the offset has grown by the TEXT lengths it passed |
| StoryParsing.GenerateScenesFromParagraphs | src/main/java/com/story_inspector/ioProcessing/OpenNLPStoryParser.java:200-237 | the two loops, the paragraph generation, the scene constructor and the recursion compute exactly the scenes of the window |
| StoryParsing.ChapterAt | src/main/java/com/story_inspector/ioProcessing/OpenNLPStoryParser.java:170-176 | a built chapter is a chapter node |
| StoryParsing.ChapterAtUnfold | src/main/java/com/story_inspector/ioProcessing/OpenNLPStoryParser.java:170-176 | the chapter is the chapter constructor over [start, start + TEXT length) applied to its scenes and its trimmed, newline-joined title, or the scenes' error |
| StoryParsing.ChaptersFromUnfold | src/main/java/com/story_inspector/ioProcessing/OpenNLPStoryParser.java:146-181 | on a non-empty window the chapters are the first chapter followed by the chapters of the rest from its end, and an error of the first stops the recursion |
| StoryParsing.ChaptersFrom | src/main/java/com/story_inspector/ioProcessing/OpenNLPStoryParser.java:139-182 | the recursion yields chapter nodes only |
| StoryParsing.ChaptersAfter | src/main/java/com/story_inspector/ioProcessing/OpenNLPStoryParser.java:173-181 | once the title run and the chapter's window are known, the result is the chapter followed by the chapters of the rest, and holds chapter nodes only |
| StoryParsing.Chain | src/main/java/com/story_inspector/ioProcessing/OpenNLPStoryParser.java:178-180 | a failed first chapter fails the whole; otherwise it goes in front of the rest's chapters |
| StoryParsing.CollectChapterTitle | src/main/java/com/story_inspector/ioProcessing/OpenNLPStoryParser.java:150-154 | the first loop stops past the CHAPTER_TITLE run and builds its texts each followed by a newline |
| StoryParsing.GenerateChaptersFromParagraphs | src/main/java/com/story_inspector/ioProcessing/OpenNLPStoryParser.java:139-182 | the two loops, the scenes, the chapter constructor and the recursion compute exactly the chapters of the window |
| StoryParsing.BodyParagraphs | src/main/java/com/story_inspector/ioProcessing/OpenNLPStoryParser.java:91-93 | no kept paragraph is BLANK, BY_LINE or CONTACT_INFO |
| StoryParsing.BodyParagraphsMembers | src/main/java/com/story_inspector/ioProcessing/OpenNLPStoryParser.java:91-93 | the filter keeps exactly the paragraphs of the document whose type is not dropped |
| StoryParsing.BodyParagraphsAt | src/main/java/com/story_inspector/ioProcessing/OpenNLPStoryParser.java:91-93 | the filter works paragraph by paragraph, in order |
| StoryParsing.FilterParagraphs | src/main/java/com/story_inspector/ioProcessing/OpenNLPStoryParser.java:91-93 | the loop computes the filtered list |
| StoryParsing.ParseStorySpec | src/main/java/com/story_inspector/ioProcessing/OpenNLPStoryParser.java:88-110 | a parsed document is a story node |
| StoryParsing.ParseStory | src/main/java/com/story_inspector/ioProcessing/OpenNLPStoryParser.java:88-110 | the filter, the title loop, the story text, the chapters from offset 0 (their paragraphs reporting to a monitor over the story text's length) and the story constructor compute exactly the parse of the document |
| StoryParsingTheorems.SpanRangesInside | src/main/java/com/story_inspector/ioProcessing/OpenNLPStoryParser.java:371-391 | the ranges of a segmentation keeping its promise tile the range and lie inside it |
| StoryParsingTheorems.TokensFromValid | src/main/java/com/story_inspector/ioProcessing/OpenNLPStoryParser.java:320-323 | token ranges starting inside the paragraph all become tokens over those ranges, in order |
| StoryParsingTheorems.SentenceTokensValid | src/main/java/com/story_inspector/ioProcessing/OpenNLPStoryParser.java:306-325 | a sentence inside its paragraph whose text is not blank tokenizes into valid tokens that tile the sentence |
| StoryParsingTheorems.NoTokensFails | src/main/java/com/story_inspector/ioProcessing/OpenNLPStoryParser.java:311-385 | a sentence in which the tokenizer finds no token, as OpenNLP does for blank text, fails with IndexOutOfBounds at the last-range lookup |
| StoryParsingTheorems.SentencesFromValid | src/main/java/com/story_inspector/ioProcessing/OpenNLPStoryParser.java:289-290 | sentence ranges that tokenize into tilings become valid sentences over those ranges |
| StoryParsingTheorems.ParagraphNodeValid | src/main/java/com/story_inspector/progress/TextProcessingProgressMonitor.java:41-45 | under the segmenters' promise, a paragraph that is not blank, whose offset lies inside the monitored text and is not cancelled, parses into a valid node |
| StoryParsingTheorems.SentenceRangeHoldsSpan | src/main/java/com/story_inspector/ioProcessing/OpenNLPStoryParser.java:371-391 | with disjoint spans in order, sentence range k lies inside the paragraph and holds span k: it starts at or before the span and ends at or after it |
| StoryParsingTheorems.SentenceRangeNonBlank | src/main/java/com/story_inspector/ioProcessing/OpenNLPStoryParser.java:285-289 | each sentence range of a paragraph that is not blank holds one of the detector's sentences, so its text is not blank either |
| StoryParsingTheorems.NoSentencesFails | src/main/java/com/story_inspector/ioProcessing/OpenNLPStoryParser.java:285-385 | a paragraph in which the detector finds no sentence, as OpenNLP does for blank text, fails with IndexOutOfBounds once the monitor accepts its offset |
| StoryParsingTheorems.ParagraphSentencesValid | src/main/java/com/story_inspector/ioProcessing/OpenNLPStoryParser.java:289-291 | sentence ranges tiling the paragraph give a valid paragraph node |
| StoryParsingTheorems.ParagraphTokenizerValid | src/main/java/com/story_inspector/ioProcessing/OpenNLPStoryParser.java:306-325 | sentence ranges inside the paragraph whose texts are not blank tokenize into tilings |
| StoryParsingTheorems.ParserBuilderValid | src/main/java/com/story_inspector/ioProcessing/OpenNLPStoryParser.java:280-292 | with the segmenters' promise and a monitor that never cancels, every paragraph that is not blank and ends inside the monitored text is built and valid |
| StoryParsingStructure.NodesTileIff | src/main/java/com/story_inspector/ioProcessing/OpenNLPStoryParser.java:371-391 | the node-by-node tiling is the tiling of the nodes' ranges |
| StoryParsingStructure.NodesTilePrepend | src/main/java/com/story_inspector/ioProcessing/OpenNLPStoryParser.java:180 | a node over [from, mid) followed by nodes tiling [mid, to) tiles [from, to) |
| StoryParsingStructure.AllValidIff | src/main/java/com/story_inspector/ioProcessing/OpenNLPStoryParser.java:180 | the node-by-node validity is validity of every node |
| StoryParsingStructure.AllValidCons | src/main/java/com/story_inspector/ioProcessing/OpenNLPStoryParser.java:235 | a list with a first node is valid exactly when that node and the rest are |
| StoryParsingStructure.TilesFromEnd | src/main/java/com/story_inspector/ioProcessing/OpenNLPStoryParser.java:228 | two tilings with the same start and the same ranges end at the same place |
| StoryParsingStructure.StoryLengthSplit | src/main/java/com/story_inspector/ioProcessing/OpenNLPStoryParser.java:160-167 | the TEXT offset over a window splits at any index |
| StoryParsingStructure.StoryLengthWithoutText | src/main/java/com/story_inspector/ioProcessing/OpenNLPStoryParser.java:161-165 | a window without TEXT paragraphs does not advance the offset |
| StoryParsingStructure.StoryLengthAllText | src/main/java/com/story_inspector/ioProcessing/OpenNLPStoryParser.java:163-165 | over TEXT paragraphs only, the scene offset equals the paragraph offset |
| StoryParsingStructure.StoryLengthShorter | src/main/java/com/story_inspector/ioProcessing/OpenNLPStoryParser.java:217-221 | the scene and chapter offsets never run ahead of the paragraph offsets, and fall behind once a non-TEXT paragraph with text is in the window |
| StoryParsingStructure.ParagraphsFromValid | src/main/java/com/story_inspector/ioProcessing/OpenNLPStoryParser.java:253-264 | with a builder that succeeds on paragraphs that are not blank ending inside the limit, such paragraphs whose summed lengths stay inside it tile [start, start + their summed lengths) and are valid |
| StoryParsingStructure.SceneSpan | src/main/java/com/story_inspector/ioProcessing/OpenNLPStoryParser.java:210-223 | in a window of TEXT and SCENE_BREAK paragraphs a scene's run holds TEXT only and the breaks before it add nothing |
| StoryParsingStructure.SceneOfValid | src/main/java/com/story_inspector/ioProcessing/OpenNLPStoryParser.java:228-231 | a scene over valid paragraphs tiling its range is built and valid |
| StoryParsingStructure.FirstSceneValid | src/main/java/com/story_inspector/ioProcessing/OpenNLPStoryParser.java:207-236 | the first scene of a non-empty window is valid over [start, end) and the window goes on after it from end |
| StoryParsingStructure.ScenesFromValid | src/main/java/com/story_inspector/ioProcessing/OpenNLPStoryParser.java:200-237 | a window of TEXT and SCENE_BREAK paragraphs gives valid scenes tiling [start, start + its TEXT length) |
| StoryParsingStructure.ParagraphsFromTile | src/main/java/com/story_inspector/ioProcessing/OpenNLPStoryParser.java:253-264 | built paragraphs always tile [start, start + their summed text lengths) |
| StoryParsingStructure.NonTextBreaksScene | src/main/java/com/story_inspector/ioProcessing/OpenNLPStoryParser.java:215-231 | a non-TEXT paragraph with text inside a scene's run makes the scene constructor reject the paragraphs, with IllegalArgument |
| StoryParsingStructure.TrailingBreakEmptyScene | src/main/java/com/story_inspector/ioProcessing/OpenNLPStoryParser.java:203-236 | a window ending in a SCENE_BREAK ends with an empty scene, without paragraphs, over the empty range at the window's end |
| StoryParsingStructure.ChapterSpan | src/main/java/com/story_inspector/ioProcessing/OpenNLPStoryParser.java:151-167 | in a window of TEXT, SCENE_BREAK and CHAPTER_TITLE paragraphs a chapter's run holds no CHAPTER_TITLE and its title run adds nothing |
| StoryParsingStructure.ChapterOfValid | src/main/java/com/story_inspector/ioProcessing/OpenNLPStoryParser.java:173-176 | a chapter over valid scenes tiling its range is built and valid |
| StoryParsingStructure.FirstChapterValid | src/main/java/com/story_inspector/ioProcessing/OpenNLPStoryParser.java:146-181 | the first chapter of a non-empty window is valid over [start, end) and the window goes on after it from end |
| StoryParsingStructure.ChapterAtValid | src/main/java/com/story_inspector/ioProcessing/OpenNLPStoryParser.java:170-176 | a chapter over a run of TEXT and SCENE_BREAK paragraphs is built and valid |
| StoryParsingStructure.ChaptersFromValid | src/main/java/com/story_inspector/ioProcessing/OpenNLPStoryParser.java:139-182 | a window of TEXT, SCENE_BREAK and CHAPTER_TITLE paragraphs gives valid chapters tiling [start, start + its TEXT length) |
| StoryParsingStructure.StoryOfValid | src/main/java/com/story_inspector/ioProcessing/OpenNLPStoryParser.java:109 | a story over valid chapters tiling its text is built and valid |
| StoryParsingStructure.ParseStoryValid | src/main/java/com/story_inspector/ioProcessing/OpenNLPStoryParser.java:88-110 | for a document whose titles lead and whose TEXT paragraphs are not blank, with a builder that succeeds on paragraphs that are not blank inside the story text, the story is built, valid at every level, and its text is that of the TEXT paragraphs |
| StoryParsingStructure.ParseStoryWithParserValid | src/main/java/com/story_inspector/ioProcessing/OpenNLPStoryParser.java:88-110 | the same for the parser's own paragraph construction reporting to the monitor over the story text's length, under the segmenters' promise, a monitor that never cancels and TEXT paragraphs that are not blank (which every extraction yields) |
| StoryParsingExamples.EmptyTextParagraphRefused | src/main/java/com/story_inspector/progress/TextProcessingProgressMonitor.java:41-42 | a document made of one empty TEXT paragraph has an empty story text, so reporting that paragraph's offset 0 makes parseStory fail with IllegalArgument |
| DocXExtraction.ExtractedTextsNonEmpty | src/main/java/com/story_inspector/ioProcessing/docx/DocXDocumentExtractor.java:133-140 | every TEXT paragraph an extraction yields has text that is not blank |
| CommentSplitting.WithinSpec | src/main/java/com/story_inspector/ioProcessing/docx/DocXReportTranscriber.java:365-366 | the locations `subSet` keeps, in the ascending order a TreeSet iterates, are exactly the partition locations in [start, start + length) |
| CommentSplitting.PiecesSpec | src/main/java/com/story_inspector/ioProcessing/docx/DocXReportTranscriber.java:369-375 | cutting a string at ascending offsets yields one more piece than there are cuts, and the pieces laid end to end are the rest of the string |
| CommentSplitting.PiecesNoCut | src/main/java/com/story_inspector/ioProcessing/docx/DocXReportTranscriber.java:369-375 | when every location strictly inside the rest of the string is a cut, no piece has a location strictly inside it |
| CommentSplitting.SplitPiecesText | src/main/java/com/story_inspector/ioProcessing/docx/DocXReportTranscriber.java:364-377 | splitString's pieces put back together give the original string, and there is one piece more than there are locations in [start, start + length) |
| CommentSplitting.SplitPiecesSingle | src/main/java/com/story_inspector/ioProcessing/docx/DocXReportTranscriber.java:364-377 | splitString leaves the string whole exactly when no location lies in [start, start + length) |
| CommentSplitting.SinglePiece | src/main/java/com/story_inspector/ioProcessing/docx/DocXReportTranscriber.java:346-347 | when splitString returns one piece, that piece is the original string, so keeping the original text element loses nothing |
| CommentSplitting.SplitPiecesEmptyFirst | src/main/java/com/story_inspector/ioProcessing/docx/DocXReportTranscriber.java:369-372 | a location at the string's own start gives an empty first piece |
| CommentSplitting.SplitPiecesNoCut | src/main/java/com/story_inspector/ioProcessing/docx/DocXReportTranscriber.java:364-377 | no partition location lies strictly inside any of splitString's pieces |
| CommentSplitting.SplitString | src/main/java/com/story_inspector/ioProcessing/docx/DocXReportTranscriber.java:364-377 | the loop over the kept locations returns exactly the specified pieces |
| CommentSplitting.SplitText | src/main/java/com/story_inspector/ioProcessing/docx/DocXReportTranscriber.java:343-351 | splitText yields one text element per piece of splitString, the original element when there is a single piece |
| CommentSplitting.TextItemsText | src/main/java/com/story_inspector/ioProcessing/docx/DocXReportTranscriber.java:349 | text elements made from the pieces spell the pieces put together |
| CommentSplitting.PushPieces | src/main/java/com/story_inspector/ioProcessing/docx/DocXReportTranscriber.java:322-325 | each piece is added to the current partition and closes it: the partitions gain exactly the pieces, in order, the last partition is empty afterwards, and no partition has a location strictly inside it |
| CommentSplitting.NonTextStep | src/main/java/com/story_inspector/ioProcessing/docx/DocXReportTranscriber.java:305-306 | a child of the run that is not text joins the current partition, keeps the run's contents and adds no text |
| CommentSplitting.UnsplitStep | src/main/java/com/story_inspector/ioProcessing/docx/DocXReportTranscriber.java:317-318 | a text element that needs no cut and does not end on a location joins the current partition whole, and the partitions stay free of locations |
| CommentSplitting.SplitStep | src/main/java/com/story_inspector/ioProcessing/docx/DocXReportTranscriber.java:320-326 | a text element that is cut, or that ends on a location, adds its pieces as closed partitions: the contents gain exactly its letters and the partitions stay free of locations |
| CommentSplitting.RunStep | src/main/java/com/story_inspector/ioProcessing/docx/DocXReportTranscriber.java:303-328 | one turn of splitRun's loop: the contents gain exactly the child's, the location advances by its text length, and a partition ending on a location is closed |
| CommentSplitting.SplitRun | src/main/java/com/story_inspector/ioProcessing/docx/DocXReportTranscriber.java:297-330 | splitRun gives one or more runs, each with the run's properties; their letters and other elements, in order, are the run's, their text is the run's text, and no location lies strictly inside any of them |
| CommentSplitting.MakeRunsAtoms | src/main/java/com/story_inspector/ioProcessing/docx/DocXReportTranscriber.java:329 | the runs made from the partitions hold the partitions' contents, in order |
| CommentSplitting.ParagraphTextAtoms | src/main/java/com/story_inspector/ioProcessing/docx/DocXReportTranscriber.java:272 | a paragraph's text is what its contents spell, so keeping the contents keeps the text |
| CommentSplitting.SplitChild | src/main/java/com/story_inspector/ioProcessing/docx/DocXReportTranscriber.java:270-280 | one child of the paragraph: a run is split, any other child is kept as it is; the contents and the text are unchanged and no location lies inside a new run |
| CommentSplitting.ParagraphStep | src/main/java/com/story_inspector/ioProcessing/docx/DocXReportTranscriber.java:268-281 | one turn of splitParagraphChildren's loop keeps the contents seen so far plus those to come equal to the paragraph's, and the position at the end of the text so far |
| CommentSplitting.SplitParagraphChildren | src/main/java/com/story_inspector/ioProcessing/docx/DocXReportTranscriber.java:263-283 | splitParagraphChildren keeps the paragraph's contents and text exactly, and afterwards no partition location lies strictly inside any run |
| CommentSplitting.StepGroups | src/main/java/com/story_inspector/ioProcessing/docx/DocXReportTranscriber.java:303-327 | one run child never leaves the partition list empty |
| CommentSplitting.PartitionRun | src/main/java/com/story_inspector/ioProcessing/docx/DocXReportTranscriber.java:298-328 | the partition loop yields the reference partitions, which spell the run's letters in order, with no location strictly inside a partition's text |
| CommentSplitting.RunTurn | src/main/java/com/story_inspector/ioProcessing/docx/DocXReportTranscriber.java:303-327 | one turn of the partition loop advances the reference by one child and keeps the run's contents and the no-cut-inside invariant |
| CommentSplitting.TextStep | src/main/java/com/story_inspector/ioProcessing/docx/DocXReportTranscriber.java:310-327 | a text element extends the partitions as the reference step says, adds exactly its letters, and keeps the no-cut-inside invariant |
| CommentSplitting.SplitPiecesExamples | src/main/java/com/story_inspector/ioProcessing/docx/DocXReportTranscriber.java:364-377 | "ab" with a location at its end stays whole; "abcd" with a location at 2 is cut into "ab" and "cd" |
| CommentSplitting.BoundaryTextStep | src/main/java/com/story_inspector/ioProcessing/docx/DocXReportTranscriber.java:316-326 | a text element that ends on a location closes the current partition |
| CommentSplitting.CutTextStep | src/main/java/com/story_inspector/ioProcessing/docx/DocXReportTranscriber.java:316-326 | a text element cut at a location closes one partition per piece |
| CommentSplitting.RunPartsBoundaryExample | src/main/java/com/story_inspector/ioProcessing/docx/DocXReportTranscriber.java:297-330 | a run "ab" followed by a non-text child, with a location at 2, is split into two runs with the run's properties |
| CommentSplitting.RunPartsCutExample | src/main/java/com/story_inspector/ioProcessing/docx/DocXReportTranscriber.java:297-330 | a run "abcd" with a location at 2 gives runs "ab", "cd" and a trailing empty run |
| Transcription.ListingMembers | src/main/java/com/story_inspector/ioProcessing/docx/DocXReportTranscriber.java:225 | the comments listed at an offset, in the set's iteration order, are exactly those of the set |
| Transcription.Restrict | src/main/java/com/story_inspector/ioProcessing/docx/DocXReportTranscriber.java:203-206 | the `subMap(start, true, end, false)` view holds exactly the entries whose offset is in [start, end), unchanged |
| Transcription.EmitStarts | src/main/java/com/story_inspector/ioProcessing/docx/DocXReportTranscriber.java:225-227 | one comment-start marker, with the comment's id, is added per comment starting at the current offset, in iteration order |
| Transcription.EmitEnds | src/main/java/com/story_inspector/ioProcessing/docx/DocXReportTranscriber.java:233-236 | one comment-end marker followed by one comment-reference marker is added per comment ending at the current offset, in iteration order |
| Transcription.DueMarkers | src/main/java/com/story_inspector/ioProcessing/docx/DocXReportTranscriber.java:224-240 | what is inserted before a child is nothing but comment markers |
| Transcription.EndIsLength | src/main/java/com/story_inspector/ioProcessing/docx/DocXReportTranscriber.java:242-245 | the offset after walking the children is the start plus the length of the paragraph's text: only runs advance it |
| Transcription.MarkRemoves | src/main/java/com/story_inspector/ioProcessing/docx/DocXReportTranscriber.java:230 | exactly the offsets at which some child begins are removed from both indexes by the marker loop |
| Transcription.MarkKeepsContent | src/main/java/com/story_inspector/ioProcessing/docx/DocXReportTranscriber.java:221-247 | inserting markers leaves the paragraph's content, markers apart, exactly as it was |
| Transcription.MarkPlacement | src/main/java/com/story_inspector/ioProcessing/docx/DocXReportTranscriber.java:223-246 | the k-th child is preceded by exactly the start, end and reference markers still due at its offset, after what the children before it yielded |
| Transcription.BoundariesAreOffsets | src/main/java/com/story_inspector/ioProcessing/docx/DocXReportTranscriber.java:214-219 | once no partition location lies strictly inside a child, every location inside the paragraph's text is an offset at which a child begins, so its markers are inserted there |
| Transcription.MarkerStep | src/main/java/com/story_inspector/ioProcessing/docx/DocXReportTranscriber.java:224-245 | one turn of the ListIterator walk emits the markers due at the current offset, drops that offset from both indexes, passes the child and advances the offset by a run's text |
| Transcription.InsertMarkers | src/main/java/com/story_inspector/ioProcessing/docx/DocXReportTranscriber.java:221-247 | the marker loop yields exactly the specified marked children and remaining indexes |
| Transcription.ParagraphOutcome | src/main/java/com/story_inspector/ioProcessing/docx/DocXReportTranscriber.java:218-247 | after splitting and marking, the content is unchanged, the indexes keep only entries they had, and every offset left in [start, end) lies at or past the end of the paragraph's text |
| Transcription.InsertCommentsIntoParagraph | src/main/java/com/story_inspector/ioProcessing/docx/DocXReportTranscriber.java:199-250 | the new contents and indexes are exactly the reference outcome: with no comment boundary in the paragraph's range nothing changes; otherwise the children are split at the boundaries and marked, handled entries leave the indexes, and the content apart from markers is unchanged |
| Transcription.MarkFront | src/main/java/com/story_inspector/ioProcessing/docx/DocXReportTranscriber.java:223-246 | marking a non-empty list puts the markers due at the current offset in front of its first child, then marks the rest from the offset past that child with those entries removed |
| Transcription.MarkAppend | src/main/java/com/story_inspector/ioProcessing/docx/DocXReportTranscriber.java:223-246 | marking a concatenation marks the first part, then the second from where the first ended with the indexes it left |
| Transcription.MarkStartExample | src/main/java/com/story_inspector/ioProcessing/docx/DocXReportTranscriber.java:223-246 | on "cd" and an empty run from offset 2 with one comment starting at 2: the start marker, then both runs, and both indexes are empty afterwards |
| Transcription.MarkSplitExample | src/main/java/com/story_inspector/ioProcessing/docx/DocXReportTranscriber.java:223-246 | on "ab", "cd" and an empty run from offset 0: nothing is due at 0, the start marker lands between "ab" and "cd" |
| Transcription.RestrictExample | src/main/java/com/story_inspector/ioProcessing/docx/DocXReportTranscriber.java:203-206 | of a start at 2 and an end at 4, the range [0, 4) keeps only the start; the end stays in the index |
| Transcription.InsertCommentsExample | src/main/java/com/story_inspector/ioProcessing/docx/DocXReportTranscriber.java:199-250 | a comment over [2, 4) in the paragraph "abcd" of range [0, 4): the run is cut at 2, the start marker goes in front of "cd", and the end entry at 4 is left for the next paragraph |
| Transcription.SkipStep | src/main/java/com/story_inspector/ioProcessing/docx/DocXReportTranscriber.java:115 | a paragraph that is not TEXT is passed over and the document is unchanged there |
| Transcription.AnnotateStep | src/main/java/com/story_inspector/ioProcessing/docx/DocXReportTranscriber.java:115-119 | a TEXT paragraph is replaced by its marked children, and nothing else in the body changes |
| Transcription.TextCountStep | src/main/java/com/story_inspector/ioProcessing/docx/DocXReportTranscriber.java:119 | the parsed-paragraph counter counts the TEXT paragraphs seen so far |
| Transcription.AddCommentsToSourceDocument | src/main/java/com/story_inspector/ioProcessing/docx/DocXReportTranscriber.java:105-124 | the outcome is the reference transcription: each loop turn makes a progress report first, and a cancelled one is TaskCanceled; the i-th TEXT paragraph is paired with the next of the report story's paragraph-level nodes and gets the markers that node's range calls for, with the indexes the earlier paragraphs left; comments that cannot be sorted fail with ClassCast, a failing paragraph query fails with its error; otherwise the call succeeds exactly when no report is cancelled and every TEXT paragraph has a body paragraph at its index and a story paragraph left, and then only TEXT paragraphs change, and only by comment markers |
| Transcription.ValidStoryParagraphs | src/main/java/com/story_inspector/ioProcessing/docx/DocXReportTranscriber.java:117 | for a valid story the paragraph-level query cannot fail: it yields the story's paragraph nodes intersecting the story's range, in document order |
| CommentIds.ResultCommentListed | src/main/java/com/story_inspector/ioProcessing/docx/DocXReportTranscriber.java:437-438 | a comment of an analyzer result is among the comments gathered from a list of results holding it |
| CommentIds.SectionCommentListed | src/main/java/com/story_inspector/ioProcessing/docx/DocXReportTranscriber.java:436-438 | every comment of every result of every report section is among the report's gathered comments |
| CommentIds.CommentLeTotal | src/main/java/com/story_inspector/analysis/Comment.java:70-73 | `compareTo` orders any two comments that do not share a selection with different analyzers |
| CommentIds.CommentLeTransitive | src/main/java/com/story_inspector/analysis/Comment.java:70-73 | the order `compareTo` defines is transitive |
| CommentIds.CommentLeAntisymmetric | src/main/java/com/story_inspector/analysis/Comment.java:70-82 | two comments each no later than the other are equal |
| CommentIds.InsertPermutes | src/main/java/com/story_inspector/ioProcessing/docx/DocXReportTranscriber.java:439 | inserting a comment into a list adds exactly that comment |
| CommentIds.InsertSorted | src/main/java/com/story_inspector/ioProcessing/docx/DocXReportTranscriber.java:439 | inserting a comment that clashes with none of a sorted list keeps it sorted |
| CommentIds.SortCommentsSpec | src/main/java/com/story_inspector/ioProcessing/docx/DocXReportTranscriber.java:439 | sorting keeps exactly the comments it is given and, when `compareTo` never fails on them, puts them in its order |
| CommentIds.SortedUnique | src/main/java/com/story_inspector/ioProcessing/docx/DocXReportTranscriber.java:439 | two sorted arrangements of the same comments are equal, so the sorted list does not depend on the sorting algorithm |
| CommentIds.Positions | src/main/java/com/story_inspector/ioProcessing/docx/DocXReportTranscriber.java:442-445 | the loop builds the map of last positions, which maps exactly the listed comments, each to its last position in the list |
| CommentIds.LastPositionsSpec | src/main/java/com/story_inspector/ioProcessing/docx/DocXReportTranscriber.java:442-445 | the map of last positions has exactly the listed comments as keys, and maps each to a position where it is listed and after which it is not |
| CommentIds.IdsDistinct | src/main/java/com/story_inspector/ioProcessing/docx/DocXReportTranscriber.java:441-445 | different comments get different ids, all in [0, n) |
| CommentIds.ExtractComments | src/main/java/com/story_inspector/ioProcessing/docx/DocXReportTranscriber.java:435-447 | fails with ClassCast exactly when two comments share a selection but not an analyzer; otherwise yields the last-positions map of the sorted comment list, which maps exactly the report's comments to their positions in it |
| CommentIds.CommentsByStartIndex | src/main/java/com/story_inspector/ioProcessing/docx/DocXReportTranscriber.java:427-433 | every comment is filed under the offset where its selection starts, and every filed set is non-empty and holds only comments starting there |
| CommentIds.CommentsByEndIndex | src/main/java/com/story_inspector/ioProcessing/docx/DocXReportTranscriber.java:419-425 | every comment is filed under the offset where its selection ends, and every filed set is non-empty and holds only comments ending there |
| Analysis.AnalyzerType.constructor | src/main/java/com/story_inspector/analysis/BaseAnalyzerType.java:43-55 | an analyzer type keeps the name, description, id, version, comment flag and parameter specs it is given |
| Analysis.NewAnalyzerType | src/main/java/com/story_inspector/analysis/BaseAnalyzerType.java:43-55 | the constructor's checks: it succeeds exactly when the id is not blank, the version is at least 1 and no two parameter specs share an id, and fails with IllegalArgument otherwise |
| Analysis.AnalyzerType.ValidateSpec | src/main/java/com/story_inspector/analysis/BaseAnalyzerType.java:108-127 | the spec is valid exactly when it is for this analyzer type and names only declared parameters; the errors are the wrong-type message, then the unknown-parameters message, each present exactly when its check fails |
| Analysis.AnalyzerType.ParameterResults | src/main/java/com/story_inspector/analysis/BaseAnalyzerType.java:81-82 | one validation result per declared parameter spec, on the value the spec stores under its id |
| Analysis.GetParameterValue | src/main/java/com/story_inspector/analysis/AnalyzerSpec.java:93-95 | the stored value, or null for a missing one, when it has the parameter's type; a ClassCast failure otherwise |
| Analysis.ValidateParameter | src/main/java/com/story_inspector/analysis/BaseAnalyzerType.java:136-141 | a value of the wrong type is invalid with the type-mismatch message; a value of the right type gets the parameter's validator's verdict |
| Analysis.MissingParameterInvalid | src/main/java/com/story_inspector/analysis/BaseAnalyzerType.java:81-82 | a declared parameter missing from the spec is invalid, even when the spec declares a default value |
| Analysis.AnalyzerType.TryCreateAnalyzer | src/main/java/com/story_inspector/analysis/BaseAnalyzerType.java:78-90 | the result carries the global and parameter results; an analyzer, whose extracted spec is the given one, is created exactly when all of them are valid; the result is always a well-formed creation result |
| Analysis.AnalyzerType.TryCreateAnalyzerAsWritten | src/main/java/com/story_inspector/analysis/BaseAnalyzerType.java:78-90 | as written: the failure result is built for the spec's analyzer type, so a spec of a type with other parameter specs throws IllegalArgument instead of returning an invalid result |
| Analysis.ForeignSpecRejectedAsWritten | src/main/java/com/story_inspector/analysis/BaseAnalyzerType.java:87 | a type with one parameter given the spec of a type with none: as written the call throws, while the corrected call returns an unsuccessful result with an invalid global result |
| Analysis.AnalyzerType.CreateAnalyzer | src/main/java/com/story_inspector/analysis/BaseAnalyzer.java:25-30 | the new analyzer's extracted spec is the spec it was created from |
| Analysis.Analyzer.constructor | src/main/java/com/story_inspector/analysis/BaseAnalyzer.java:25-30 | an analyzer keeps its name and description, its type, its suppression flag and its parameter values |
| Analysis.AnalyzerEqualsIff | src/main/java/com/story_inspector/analysis/BaseAnalyzer.java:64-70 | two analyzers are equal exactly when every part of their extracted specs is equal |
| Analysis.NewCreationResult | src/main/java/com/story_inspector/analysis/AnalyzerCreationResult.java:24-42 | the private constructor succeeds exactly when the parameter results are keyed by the type's declared specs and an analyzer is present exactly when every result is valid; IllegalArgument otherwise |
| Analysis.NewSuccessResult | src/main/java/com/story_inspector/analysis/AnalyzerCreationResult.java:56-59 | a success result needs results for exactly the analyzer's type's specs, all valid, and then holds that analyzer |
| Analysis.NewFailureResult | src/main/java/com/story_inspector/analysis/AnalyzerCreationResult.java:73-76 | a failure result needs results for exactly the type's specs, at least one of them invalid, and then is unsuccessful |
| Analysis.NewComment | src/main/java/com/story_inspector/analysis/Comment.java:31-42 | a comment needs non-empty content, and then keeps its analyzer, content and selection |
| Analysis.StringCompareToZero | src/main/java/com/story_inspector/analysis/Comment.java:70-73 | `String.compareTo`, used on the contents, is 0 exactly for equal strings |
| Analysis.StringCompareToAntisymmetric | src/main/java/com/story_inspector/analysis/Comment.java:70-73 | swapping two strings negates their comparison |
| Analysis.StringCompareToTransitive | src/main/java/com/story_inspector/analysis/Comment.java:70-73 | the string order is transitive |
| Analysis.CompareCommentsFails | src/main/java/com/story_inspector/analysis/Comment.java:70-73 | comparing two comments fails, with ClassCast, exactly when they share a selection but not an analyzer |
| Analysis.CommentEqualsIff | src/main/java/com/story_inspector/analysis/Comment.java:75-82 | two comments are equal exactly when they have the same analyzer, content and selection |
| Analysis.CompareBySelection | src/main/java/com/story_inspector/analysis/Comment.java:70-73 | with the same analyzer and content, comments compare as their selections do |
| Analysis.CompareCommentsAntisymmetric | src/main/java/com/story_inspector/analysis/Comment.java:70-73 | swapping two comparable comments negates their comparison |
| Analysis.NewAnalyzerResult | src/main/java/com/story_inspector/analysis/AnalyzerResult.java:35-48 | a result succeeds exactly when the analyzer type advertises comments or there are none, and keeps what it is given |
| Analysis.GetComments | src/main/java/com/story_inspector/analysis/AnalyzerResult.java:64-69 | nothing when the analyzer suppresses comment recording, otherwise exactly the stored comments |
| Analysis.AnalyzerSummarySpec | src/main/java/com/story_inspector/analysis/AnalyzerResult.java:86-92 | the summary starts with the analyzer's name as a level-2 heading and its description, fails exactly when some component is a table, and otherwise holds one call per component |
| Analysis.WriteAnalyzerSummary | src/main/java/com/story_inspector/analysis/AnalyzerResult.java:86-92 | the writer receives exactly the specified calls, and the call fails exactly as specified |
| SummaryWriting.SetPageBreakBefore | src/main/java/com/story_inspector/ioProcessing/docx/DocXReportSummaryWriter.java:188-192 | the page-break flag is set on a paragraph with properties, and nothing else about it changes; a paragraph without properties fails with a null dereference |
| SummaryWriting.HeadingStyle | src/main/java/com/story_inspector/ioProcessing/docx/DocXReportSummaryWriter.java:101-115 | a negative level fails with IllegalArgument; level 0 is the title style, 1 the first heading style, anything higher the second |
| SummaryWriting.AddParagraphTo | src/main/java/com/story_inspector/ioProcessing/docx/DocXReportSummaryWriter.java:89-98 | once the summary has ended the call fails and changes nothing; a pending break on a paragraph without properties fails; otherwise the paragraph is buffered last, taking the pending break, which is cleared |
| SummaryWriting.BufferedPairsSpec | src/main/java/com/story_inspector/ioProcessing/docx/DocXReportSummaryWriter.java:125-129 | the pairs' buffered paragraphs are one per pair, in order, and only the first can carry the pending break |
| SummaryWriting.AddPairsSpec | src/main/java/com/story_inspector/ioProcessing/docx/DocXReportSummaryWriter.java:125-129 | on a summary that has not ended, writing pairs buffers exactly their paragraphs, a pending break going to the first and staying pending when there are none |
| SummaryWriting.AddPairsFirst | src/main/java/com/story_inspector/ioProcessing/docx/DocXReportSummaryWriter.java:126-127 | writing pairs is buffering the first pair's paragraph, then writing the rest |
| SummaryWriting.EndedRejectsAll | src/main/java/com/story_inspector/ioProcessing/docx/DocXReportSummaryWriter.java:90-91 | after the summary has ended every call fails with a RuntimeException; only an image call changes the state, using up its two ids |
| SummaryWriting.PageBreaksCollapse | src/main/java/com/story_inspector/ioProcessing/docx/DocXReportSummaryWriter.java:132-136 | two page breaks in a row have the effect of one |
| SummaryWriting.EndTwiceFails | src/main/java/com/story_inspector/ioProcessing/docx/DocXReportSummaryWriter.java:164-166 | after a successful end the summary has ended, and a second end fails and changes nothing |
| SummaryWriting.ReplayAppend | src/main/java/com/story_inspector/ioProcessing/docx/DocXReportSummaryWriter.java:46-186 | making two sequences of calls one after the other is making all the calls, stopping at the first failure |
| SummaryWriting.DrawingIdsAppend | src/main/java/com/story_inspector/ioProcessing/docx/DocXReportSummaryWriter.java:97 | the image ids of the buffered paragraphs grow by the ids of the paragraph added |
| SummaryWriting.TextRunsHaveNoIds | src/main/java/com/story_inspector/ioProcessing/docx/DocXReportSummaryWriter.java:213-231 | text runs carry no image ids |
| SummaryWriting.ImageRunIds | src/main/java/com/story_inspector/ioProcessing/docx/DocXReportSummaryWriter.java:153 | an image paragraph carries exactly the two ids it was given |
| SummaryWriting.AddTextParagraphKeepsIds | src/main/java/com/story_inspector/ioProcessing/docx/DocXReportSummaryWriter.java:89-98 | buffering a text paragraph keeps the image ids fresh and the next id unchanged |
| SummaryWriting.AddPairsKeepsIds | src/main/java/com/story_inspector/ioProcessing/docx/DocXReportSummaryWriter.java:125-129 | writing key/value pairs keeps the image ids fresh and the next id unchanged |
| SummaryWriting.WriteImageKeepsIds | src/main/java/com/story_inspector/ioProcessing/docx/DocXReportSummaryWriter.java:139-161 | an image takes the next two ids, above every id used so far, and the next id moves on by two |
| SummaryWriting.IncreasingAppend | src/main/java/com/story_inspector/ioProcessing/docx/DocXReportSummaryWriter.java:184-186 | two ids taken from the counter after ids all below it keep the ids strictly increasing and below the new counter |
| SummaryWriting.ApplyKeepsImageIdsFresh | src/main/java/com/story_inspector/ioProcessing/docx/DocXReportSummaryWriter.java:184-186 | every call keeps the image ids positive, strictly increasing and below the counter, which only an image call moves, by two |
| SummaryWriting.ReplayKeepsImageIdsFresh | src/main/java/com/story_inspector/ioProcessing/docx/DocXReportSummaryWriter.java:184-186 | any sequence of calls keeps the image ids fresh and never lowers the counter, so no two images share an id |
| SummaryWriting.InitialImageIdsFresh | src/main/java/com/story_inspector/ioProcessing/docx/DocXReportSummaryWriter.java:66-74 | a new writer has no buffered paragraphs and its counter starts at 1 |
| SummaryWriting.SummaryWriter.constructor | src/main/java/com/story_inspector/ioProcessing/docx/DocXReportSummaryWriter.java:82-84 | the new writer is in the initial state over the document's content |
| SummaryWriting.SummaryWriter.AddParagraph | src/main/java/com/story_inspector/ioProcessing/docx/DocXReportSummaryWriter.java:89-98 | the writer's new state and failure are those of the specified paragraph addition |
| SummaryWriting.SummaryWriter.WriteHeading | src/main/java/com/story_inspector/ioProcessing/docx/DocXReportSummaryWriter.java:101-117 | the writer's new state and failure are those of the specified heading call |
| SummaryWriting.SummaryWriter.WriteText | src/main/java/com/story_inspector/ioProcessing/docx/DocXReportSummaryWriter.java:120-122 | the writer's new state and failure are those of the specified text call |
| SummaryWriting.SummaryWriter.WriteKeyValuePairs | src/main/java/com/story_inspector/ioProcessing/docx/DocXReportSummaryWriter.java:125-129 | the writer's new state and failure are those of the specified pairs call |
| SummaryWriting.SummaryWriter.AddPageBreak | src/main/java/com/story_inspector/ioProcessing/docx/DocXReportSummaryWriter.java:132-136 | the writer's new state and failure are those of the specified page-break call |
| SummaryWriting.SummaryWriter.NextUniqueImageId | src/main/java/com/story_inspector/ioProcessing/docx/DocXReportSummaryWriter.java:184-186 | returns the current counter and moves it on by one, changing nothing else |
| SummaryWriting.SummaryWriter.WriteImage | src/main/java/com/story_inspector/ioProcessing/docx/DocXReportSummaryWriter.java:139-161 | the writer's new state and failure are those of the specified image call |
| SummaryWriting.SummaryWriter.EndReportSummary | src/main/java/com/story_inspector/ioProcessing/docx/DocXReportSummaryWriter.java:164-182 | the writer's new state and failure are those of the specified end call: the buffered paragraphs go in front of the content and the first element gets a page break |
| Validation.IntToString | src/main/java/com/story_inspector/analysis/BaseAnalyzerType.java:138 | an integer value prints as at least one character when the type-mismatch message shows it |
| Validation.InvalidResult | src/main/java/com/story_inspector/analysis/ValidationResult.java:65-69 | an invalid result needs a non-empty error list and keeps it in the given order; an empty list fails with IllegalArgument |
| Validation.Invalid | src/main/java/com/story_inspector/analysis/ValidationResult.java:78-80 | the one-message factory is the list factory on that single message |
| Validation.AlwaysValid | src/main/java/com/story_inspector/analysis/ParameterValidator.java:35-37 | every value passes, null included |
| Validation.NotNull | src/main/java/com/story_inspector/analysis/ParameterValidator.java:46-48 | a value passes exactly when it is not null, and the failure reads "<name> must be specified" |
| Validation.CreateValidator | src/main/java/com/story_inspector/analysis/ParameterValidator.java:60-67 | a value passes exactly when the predicate holds, and the failure carries exactly the given message |
| Validation.AllErrorsEmptyIff | src/main/java/com/story_inspector/analysis/ParameterValidator.java:81-85 | the errors collected from the results are empty exactly when every result is valid, so an invalid concatenation always has an error to report |
| Validation.AllErrorsAt | src/main/java/com/story_inspector/analysis/ParameterValidator.java:85 | the collected errors are those of the results before k, then result k's, then those after |
| Validation.ResultsOf | src/main/java/com/story_inspector/analysis/ParameterValidator.java:80 | one result per validator, in the validators' order |
| Validation.Concatenated | src/main/java/com/story_inspector/analysis/ParameterValidator.java:79-86 | the concatenated validator passes a value exactly when every component passes it, and its errors are the components' errors in component order |
| Validation.ConcatenateValidators | src/main/java/com/story_inspector/analysis/ParameterValidator.java:77-88 | an empty list fails with IllegalArgument; otherwise the result is the concatenated validator |
| Validation.ConcatenateOne | src/main/java/com/story_inspector/analysis/ParameterValidator.java:77-88 | a single validator, concatenated, judges every value as it does alone |
| Validation.ConcatenatedKeepsErrors | src/main/java/com/story_inspector/analysis/ParameterValidator.java:85 | the errors of each component appear, as one block, in the concatenated errors |
| Validation.ParameterSpec.constructor | src/main/java/com/story_inspector/analysis/ParameterSpec.java:37-49 | a parameter spec keeps its name, description, id, type, validator and default value |
| Validation.NewParameterSpec | src/main/java/com/story_inspector/analysis/ParameterSpec.java:37-49 | the full constructor succeeds exactly when the id is not empty, and fails with IllegalArgument otherwise |
| Validation.NewParameterSpecWithoutDefault | src/main/java/com/story_inspector/analysis/ParameterSpec.java:65-68 | without a default the spec reports no default value and keeps its validator |
| Validation.NewUnvalidatedParameterSpec | src/main/java/com/story_inspector/analysis/ParameterSpec.java:82-84 | the shortest constructor has no default value and a validator that passes every value |
| Summaries.ComponentEvents | src/main/java/com/story_inspector/analysis/summary/AnalyzerSummaryTable.java:55-59 | a component's write fails, with UnsupportedOperation, exactly when it is a table; a key-value list makes one pairs call with its pairs and a heat map one image call |
| Summaries.ComponentsEmissionSpec | src/main/java/com/story_inspector/analysis/AnalyzerResult.java:89-91 | writing components fails exactly when one of them is a table, and when none is, each component makes exactly one call, in component order |
| Summaries.RecordingWriter.constructor | src/main/java/com/story_inspector/analysis/summary/ReportSummaryWriter.java:24-59 | a new recording writer has seen no calls |
| Summaries.RecordingWriter.Write | src/main/java/com/story_inspector/analysis/summary/ReportSummaryWriter.java:24-59 | each call is recorded after those before it |
| Summaries.WriteComponent | src/main/java/com/story_inspector/analysis/summary/KeyValueListSummaryComponent.java:27-30 | the writer receives exactly the component's call, or nothing when the component throws, and the failure is reported |
| Summaries.WriteComponents | src/main/java/com/story_inspector/analysis/AnalyzerResult.java:89-91 | the loop over the components makes exactly the specified calls and stops with the specified failure |
| Summaries.NewSummaryTable | src/main/java/com/story_inspector/analysis/summary/AnalyzerSummaryTable.java:21-41 | the table constructor succeeds exactly when the data has a row, no row differs in length from the first, the row headers (if any) number the rows and the column headers (if any) number the columns; IllegalArgument otherwise |
| Summaries.CountIntersecting | src/main/java/com/story_inspector/analysis/summary/FrequencyStatisticsSummaryComponent.java:51-55 | a node's count never exceeds the number of matches |
| Summaries.CountIntersectingAppend | src/main/java/com/story_inspector/analysis/summary/FrequencyStatisticsSummaryComponent.java:51-55 | the count is additive over a split of the matches |
| Summaries.CountIntersectingAll | src/main/java/com/story_inspector/analysis/summary/FrequencyStatisticsSummaryComponent.java:51-55 | every match is counted exactly when every match intersects the node's range |
| Summaries.MaxPerNode | src/main/java/com/story_inspector/analysis/summary/FrequencyStatisticsSummaryComponent.java:48-60 | the result bounds every node's count of intersecting matches and is some node's count, or 0; it never exceeds the number of matches |
| Summaries.FrequencyLevelsAnswered | src/main/java/com/story_inspector/analysis/summary/FrequencyStatisticsSummaryComponent.java:41-44 | on a story whose levels are consistent, the chapter, scene, paragraph and sentence queries all succeed |
| Summaries.FrequencyStatistics | src/main/java/com/story_inspector/analysis/summary/FrequencyStatisticsSummaryComponent.java:38-46 | five pairs with the fixed keys in order: the number of matches, then per level the largest number of matches intersecting one node; it succeeds on every consistent story and fails only when a level query fails |
| Reports.SectionSpecEqualsEquivalence | src/main/java/com/story_inspector/analysis/reports/ReportSectionSpec.java:54-62 | section-spec equality is reflexive, symmetric and transitive |
| Reports.NumAnalyzersAppend | src/main/java/com/story_inspector/analysis/reports/ReportSpec.java:43 | the analyzer count of joined section lists is the sum of their counts |
| Reports.NumAnalyzersOfEqualSpecs | src/main/java/com/story_inspector/analysis/reports/ReportSpec.java:64-72 | equal report specs count the same number of analyzers |
| Reports.NumAnalyzersOfEqualSections | src/main/java/com/story_inspector/analysis/reports/ReportSpec.java:64-72 | element-wise equal section lists count the same number of analyzers |
| Reports.ReportSpecEqualsEquivalence | src/main/java/com/story_inspector/analysis/reports/ReportSpec.java:64-72 | report-spec equality is reflexive, symmetric and transitive |
| Reports.NewReportSection | src/main/java/com/story_inspector/analysis/reports/ReportSection.java:38-53 | a section is built exactly when there is one result per analyzer of its spec, result i produced by an analyzer equal to analyzer i; IllegalArgument otherwise |
| Reports.WriteSectionSummary | src/main/java/com/story_inspector/analysis/reports/ReportSection.java:89-95 | the writer receives the section's name as a level-1 heading, its description, then each result's summary, stopping at the first failure |
| Reports.WriteResults | src/main/java/com/story_inspector/analysis/reports/ReportSection.java:92-94 | the writer receives exactly the calls of the analyzer results in order, and the first failure among them is reported |
| Reports.NewReport | src/main/java/com/story_inspector/analysis/reports/Report.java:42-58 | a report is built exactly when there is one section per spec section, section i's spec equal to spec section i; IllegalArgument otherwise |
| Reports.ComponentsEmissionBody | src/main/java/com/story_inspector/analysis/AnalyzerResult.java:89-91 | the calls of components never end the summary, make no page break and use no negative heading level |
| Reports.ResultsEmissionBody | src/main/java/com/story_inspector/analysis/reports/ReportSection.java:92-94 | the calls of analyzer results never end the summary, make no page break and use no negative heading level |
| Reports.PageBreaksAppend | src/main/java/com/story_inspector/analysis/reports/Report.java:97-100 | the page breaks of joined call lists add up |
| Reports.PageBreaksNone | src/main/java/com/story_inspector/analysis/reports/ReportSection.java:89-95 | calls of results and sections make no page break of their own |
| Reports.SectionsEmissionSpec | src/main/java/com/story_inspector/analysis/reports/Report.java:97-100 | without failure the sections make exactly one page break each and never end the summary; with a failure, the calls stop inside some section, and the failure happens exactly when some section fails |
| Reports.ReportSummarySpec | src/main/java/com/story_inspector/analysis/reports/Report.java:92-103 | the summary opens with the quoted title and the report name as level-0 headings and the description; without failure it holds one page break per section and ends with its only end call; when a section fails the summary is never ended |
| Reports.SectionsEmissionStep | src/main/java/com/story_inspector/analysis/reports/Report.java:97-100 | the sections from i on are section i after its page break, then, unless it failed, the sections after it |
| Reports.WritePagedSection | src/main/java/com/story_inspector/analysis/reports/Report.java:98-99 | one loop turn: the writer receives a page break, then the section's summary |
| Reports.WriteSections | src/main/java/com/story_inspector/analysis/reports/Report.java:97-100 | the loop gives the writer exactly the specified calls and fails exactly as specified |
| Reports.SectionsAdvance | src/main/java/com/story_inspector/analysis/reports/Report.java:97-100 | after a section that did not fail, what remains to write is the sections after it |
| Reports.WriteReportSummary | src/main/java/com/story_inspector/analysis/reports/Report.java:92-103 | the writer receives exactly the specified report summary calls, and the call fails exactly as specified |
| Reports.WritePreamble | src/main/java/com/story_inspector/analysis/reports/Report.java:93-95 | the writer receives the quoted story title and the report name as level-0 headings, then the description |
| Reports.ReportSummaryParts | src/main/java/com/story_inspector/analysis/reports/Report.java:92-103 | the summary is the preamble and the sections' calls, ended by the end call only when no section failed |
| ReportWriting.ApplyBody | src/main/java/com/story_inspector/ioProcessing/docx/DocXReportSummaryWriter.java:89-129 | a body call on a writer that has not ended and has no pending break succeeds, leaves it so, and leaves the document content alone |
| ReportWriting.ReplayBody | src/main/java/com/story_inspector/ioProcessing/docx/DocXReportSummaryWriter.java:89-129 | a sequence of body calls on such a writer all succeed, leave it ready and leave the document content alone |
| ReportWriting.ReplayTwo | src/main/java/com/story_inspector/ioProcessing/docx/DocXReportSummaryWriter.java:46-186 | making three or more calls is making the first two one by one, then the rest |
| ReportWriting.ReplayPagedSection | src/main/java/com/story_inspector/ioProcessing/docx/DocXReportSummaryWriter.java:132-136 | a section after its page break succeeds on a ready writer: the break goes to the section heading, and the writer is ready again |
| ReportWriting.ReplaySections | src/main/java/com/story_inspector/analysis/reports/Report.java:97-100 | all the sections a report writes succeed on a ready writer and leave it ready, with the content untouched |
| ReportWriting.ReportSummaryAccepted | src/main/java/com/story_inspector/analysis/reports/Report.java:92-103 | on a new docx writer no call before the end throws; when no component fails, the summary ends exactly when the document's first element can be marked, and then the buffered paragraphs stand before the content, the first of which starts a new page |
| AnalyzerTypeRegistry.GetBelow | src/main/java/com/story_inspector/analysis/SpringBasedAnalyzerTypeRegistry.java:56-64 | a version below the first of a version map's increasing keys is not in it |
| AnalyzerTypeRegistry.Put | src/main/java/com/story_inspector/analysis/SpringBasedAnalyzerTypeRegistry.java:35 | `put` keeps the version map ordered and non-empty; afterwards the version maps to the new type and every other version keeps its entry |
| AnalyzerTypeRegistry.Latest | src/main/java/com/story_inspector/analysis/SpringBasedAnalyzerTypeRegistry.java:46-53 | `lastKey`'s entry is present and no present version is higher |
| AnalyzerTypeRegistry.Filed | src/main/java/com/story_inspector/analysis/SpringBasedAnalyzerTypeRegistry.java:32-35 | filing one more type keeps every id's versions non-empty, ordered and filed under that type's own id and version |
| AnalyzerTypeRegistry.Registered | src/main/java/com/story_inspector/analysis/SpringBasedAnalyzerTypeRegistry.java:29-37 | the grouping built from the beans is well formed |
| AnalyzerTypeRegistry.RegisteredStep | src/main/java/com/story_inspector/analysis/SpringBasedAnalyzerTypeRegistry.java:31-36 | registering a prefix one bean longer files that bean into the grouping of the shorter prefix |
| AnalyzerTypeRegistry.FiledLookup | src/main/java/com/story_inspector/analysis/SpringBasedAnalyzerTypeRegistry.java:32-35 | filing a type adds its id and changes the lookup of its own id and version only |
| AnalyzerTypeRegistry.RegisteredSpec | src/main/java/com/story_inspector/analysis/SpringBasedAnalyzerTypeRegistry.java:29-37 | an id is registered exactly when some bean has it, and the type found for an id and a version is the last bean registered with both |
| AnalyzerTypeRegistry.BeanIds | src/main/java/com/story_inspector/analysis/SpringBasedAnalyzerTypeRegistry.java:31 | some bean has an id exactly when the last bean or an earlier one has it |
| AnalyzerTypeRegistry.GetFound | src/main/java/com/story_inspector/analysis/SpringBasedAnalyzerTypeRegistry.java:56-64 | what a version lookup finds in an id's version map has that id and version |
| AnalyzerTypeRegistry.TypeRegistry.constructor | src/main/java/com/story_inspector/analysis/SpringBasedAnalyzerTypeRegistry.java:26 | a new registry is empty and well formed |
| AnalyzerTypeRegistry.TypeRegistry.SetApplicationContext | src/main/java/com/story_inspector/analysis/SpringBasedAnalyzerTypeRegistry.java:29-37 | the registry becomes exactly the grouping of the context's analyzer types, in iteration order |
| AnalyzerTypeRegistry.TypeRegistry.Register | src/main/java/com/story_inspector/analysis/SpringBasedAnalyzerTypeRegistry.java:32-35 | one loop turn: the registry becomes the old grouping with the type filed |
| AnalyzerTypeRegistry.TypeRegistry.ByIdAndVersion | src/main/java/com/story_inspector/analysis/SpringBasedAnalyzerTypeRegistry.java:56-64 | the type found is the lookup of that id and version in the registry: it has the requested id and version, and an unknown id finds nothing |
| AnalyzerTypeRegistry.RegistryFindsLastBean | src/main/java/com/story_inspector/analysis/SpringBasedAnalyzerTypeRegistry.java:29-64 | after registering the beans, the exact lookup finds the last bean with that id and version, and finds one exactly when some bean has them |
| AnalyzerTypeRegistry.LastWithFound | src/main/java/com/story_inspector/analysis/SpringBasedAnalyzerTypeRegistry.java:29-37 | the last bean with an id and version exists exactly when some bean has that id and version |
| AnalyzerTypeRegistry.TypeRegistry.ById | src/main/java/com/story_inspector/analysis/SpringBasedAnalyzerTypeRegistry.java:46-53 | a type is found exactly for a registered id; it has that id, it is what the exact lookup finds for its version, and no registered version of that id is higher |
| AnalyzerTypeRegistry.TypeRegistry.CurrentTypes | src/main/java/com/story_inspector/analysis/SpringBasedAnalyzerTypeRegistry.java:40-43 | every type listed is the highest version of its registered id, and every registered id has its highest version listed |

## Left out

- Document I/O through docx4j (loading, saving, `addCommentContents`, `writeResult`, `generateStyles`, and the ImageIO calls that encode chart images) is not modelled. The document is a value: the uniform content tree the library exposes.
- Style resolution is not modelled: resolving a paragraph's alignment and a run's bold, italics and underline through the style hierarchy, and `isParagraphCentered`. Their results are carried on the element kinds as flags. Run properties are opaque values that splitting copies.
- OpenNLP sentence detection, tokenisation, part-of-speech tagging and stemming are not modelled. They enter as the functions of an `Nlp` value. The ghost predicate `NlpContract` constrains only what they return for text that is not blank: disjoint, ordered sentence spans each over some non-whitespace character, ordered token spans, and one tag per token. Nothing is promised for blank text, where OpenNLP finds nothing; the parser then fails with IndexOutOfBounds (`NoSentencesFails`, `NoTokensFails`). That the OpenNLP models keep this promise is assumed, not proved.
- Progress reporting enters as `StoryParsing.TextMonitor`: the range check of `TextProcessingProgressMonitor.reportProgress` is modelled (an offset outside [0, text length - 1] is IllegalArgumentException), and the delegate's cancellation is the parameter `cancelsAt` (reporting offset k raises TaskCanceledException exactly when `cancelsAt(k)` holds). The document extraction and the transcription loop take a parameter `cancels`: the k-th progress report of the call (counted from 0) raises TaskCanceledException exactly when `cancels(k)` holds. The fractional progress reports of `parseStory` itself, the sub-monitors that `StoryProcessingTask` maps the stages onto, the progress fractions (floating point) and the messages are not modelled; the reports of `parseStory` could also cancel.
- Transcription.AddCommentsToSourceDocument: the story's paragraph query is evaluated once, before the loop, where the source repeats it for each TEXT paragraph; the query reads only the unchanging story, so every evaluation gives the same result.
- Character classes and case mapping (`isLetterOrDigit`, `isWhitespace`, `toLowerCase`, `trim`, ...) cover ASCII only. Non-ASCII letters are not letters in this model.
- Analysis.StringCompareTo: compares the characters of a Dafny string, which are Unicode scalar values, where Java compares UTF-16 code units. The two orders differ only on strings holding characters outside the Basic Multilingual Plane (next to characters in U+E000..U+FFFF); the order on contents is still a total order, which is all the comment order relies on.
- Java `int` overflow is not modelled: offsets, ids and counts are unbounded integers. Documents beyond 2^31 characters are out of scope.
- Null arguments, and the constructors' not-null checks, are not modelled. Dafny values are never null. The one null that carries meaning, a parameter left unset, is the value `Null`.
- The HeatMap summary component is modelled only as the image it writes, an opaque id. Its chart, which is built from floating-point intensities and drawn on separate threads, is not modelled.
- `BaseAnalyzerType.createAnalyzer` is abstract. It is modelled as building an analyzer that keeps the spec it was given. The concrete analyzer types, such as the word search analyzer type and its `execute`, are not modelled.
- Transcription.Listing: the iteration order of a `HashSet` of comments depends on hash codes. It is the parameter `order`.
- Transcription: the `subMap` views of the comment maps are the restricted maps the model returns. The `ListIterator` walk over a paragraph's content is a list built up in order. A comment reference is modelled as a child of its own, not as a run that holds it.
- Transcription.Lookup: its default of -1 is never reached (lemma `Known`). It exists only to make the lookup total.
- CommentIds.ExtractComments: the failure case is stated as "some two comments clash" (same selection, different analyzers). The JVM's sort throws ClassCastException only if it happens to compare such a pair, and which pairs it compares is not modelled.
- A set's text form, as used in validation messages, is the parameter `showSet`. Java's `Set.toString` order is not modelled.
- `equals` of describables (BaseDescribable), analyzer specs and comments is datatype equality. Section and report specs hold analyzers, which are objects, so they are compared by `Reports.SectionSpecEquals` and `Reports.ReportSpecEquals`, which compare the analyzers inside them with `Analysis.Analyzer.Equals` (by extracted spec). Identity equality of analyzer types and parameter specs is class reference equality.
- `AnalyzerSummaryTable.getData` returns a defensive copy. As a value the copy is the table itself, so it has no member of its own.
- AnalyzerTypeRegistry.TypeRegistry: the bean iteration order of the application context is the parameter `beans`. The registry's behaviour before `setApplicationContext` has run is not modelled.
- CustomAnalyzerIds.GenerateIdForAnalyzer: whether a file exists is the parameter `fileExists`. The model follows the code's 100000 attempts (DirectoryBasedCustomAnalyzerRegistry.java:119); the comment above it says 10,000.
- The user interface, save management and serialization of analyzers and reports (the controllers other than section naming, JSON and file handling) are not modelled.
- Parsed paragraphs enter story parsing as extracted paragraphs with their ranges. Reading them from the document is the extraction step, which is modelled separately.

## Findings

| source | as written | input that shows it | evidently intended | confidence | as-written member | corrected member |
|---|---|---|---|---|---|---|
| src/main/java/com/story_inspector/ioProcessing/docx/DocXDocumentExtractor.java:170-179 | `containsNodeTypes` returns false when the node is of one of the given types, so it never returns true, and `validateNoRevisionData` only rejects documents that have a comments part | a body paragraph that holds a deleted-text element (`w:delText`) and no comments part passes validation | return true on a matching node, so that tracked changes and comment ranges anywhere in the body are rejected as revision data | not executed | DocXExtraction.DeletedTextSlipsThrough | DocXExtraction.ValidateNoRevisionData |
| src/main/java/com/story_inspector/analysis/BaseAnalyzerType.java:87 | on failure, the creation result is built with the spec's analyzer type, whose parameter specs need not be this type's, so the key check in the AnalyzerCreationResult constructor throws IllegalArgumentException | a type with one parameter given the spec of a type with no parameters | build the failure result with this type (`this`), so a foreign spec yields an unsuccessful result whose global validation reports the wrong type | not executed | Analysis.ForeignSpecRejectedAsWritten | Analysis.AnalyzerType.TryCreateAnalyzer |
