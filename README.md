# Contract redline engine — a Dafny model

This project models, in Dafny, the document core of a contract-review application. The application:

- turns an uploaded Word or PDF contract into typed, offset-tracked blocks;
- annotates those blocks for a language model;
- turns the character-range edits the analysis proposes into tracked-change "redline" runs and a clean merged text;
- assembles both into export documents.

## Modules

| Module | File | Models |
|---|---|---|
| `Wrappers`, `Text` | `text.dfy` | The JavaScript string operations the source relies on. |
| `Types` | `types.dfy` | The records of `app/lib/types.ts`. |
| `Segmentation` | `segmentation.dfy` | The segmentation shared by both parsers. |
| `DocxParser` | `docx_parser.dfy` | `app/lib/docx-parser.ts`. |
| `PdfParser` | `pdf_parser.dfy` | `app/lib/pdf-parser.ts`. |
| `Annotator` | `annotator.dfy` | `app/lib/document-annotator.ts`. |
| `Redline` | `redline.dfy` | The edit resolver and the two renderings of `app/lib/redline-builder.ts`, as specification functions. |
| `RedlineBuilder` | `redline_builder.dfy` | The loops of `applyEditsToBlock` and `applyEditsCleanly`. |
| `Assembler` | `assembler.dfy` | The validation, grouping, comment-numbering and block loops of `buildRedlineDocx` and `buildCleanDocx`. |
| `Report` | `report.dfy` | The helpers of `app/lib/report-generator.ts`. |
| `Playbook` | `playbook.dfy` | `toPromptString` of `app/lib/playbook.ts` over its data. |
| `ClauseMap` | `clause_map.dfy` | The derivations of `app/components/ClauseMap.jsx`. |
| `ExportRoute` | `export_route.dfy` | The `POST` handler of `app/api/export-redline/route.ts`. |

`Text` provides:

- `trim` with the JavaScript whitespace set;
- ASCII upper and lower case;
- `split` on the three regular expressions used;
- `join`, `slice` and truncation.

## How the model is built

The model follows the source's own form:

- **Loops become methods.** Each loop of the source is a `method` with a `while` loop and its invariants. It is proved equal to a recursive specification function.
- **Properties are lemmas.** The properties the code promises are proved as lemmas about those functions.
- **Pure code stays pure.** The source's pure map/filter/join code is written as functions.
- **Block IDs come from a counter.** Blocks get IDs `MakeId(n)` from a counter in place of `uuidv4()`. The counter is passed in and returned, like the `revisionIdCounter` object of the redline builder.
- **Regular expressions become predicates.** The source's regular expressions are written out as explicit character-level functions.
- **Redlines are runs.** A redline is a sequence of `Unchanged`, `Deleted` and `Inserted` runs, with revision IDs. The Word objects are not modelled.

Two behaviours of the code are easy to misread:

- **PDF offsets.** The PDF parser's offsets assume a two-character paragraph break. Its full text is the raw extracted text, so the offsets need not index it (`PdfParser.OffsetsNeedNotIndexFullText`).
- **Numbered all-caps headings in Word files.** A paragraph such as `1. DEFINITIONS` is first classified as a heading of level 1. Its `1.` list marker then turns it into a numbered list item that keeps its heading level (`DocxParser.NumberedCapsHeadingBecomesListItem`).

## Model

| member | source | states |
|---|---|---|
| Types.BlockIds | app/lib/redline-builder.ts:325 | Every block's ID is in the set, and every ID in the set belongs to some block. |
| Types.IndexOf | app/lib/document-annotator.ts:130 | `findIndex` by ID: a found index holds the ID and no earlier index does. Nothing is found exactly when no block has the ID. |
| Types.LookupLast | app/lib/docx-parser.ts:150-156 | After the first `n` blocks the lookup's keys are their IDs. Each maps to an index below `n` that holds it, with no later block holding it. |
| Types.LookupKeys | app/lib/docx-parser.ts:150-156 | Over all the blocks, the lookup's keys are exactly the block IDs. |
| Types.LookupDistinct | app/lib/docx-parser.ts:150-156 | With distinct IDs, each block's ID maps to that block's own index. |
| Types.MakeIdInjective | app/lib/docx-parser.ts:37 | Two counter values that give the same block ID are equal, so fresh IDs never collide. |
| Types.ChainedAt | app/lib/docx-parser.ts:36-43 | Block `k` of a chain has ID `MakeId(firstId + k)`, and its `charEnd` is its `charStart` plus its content's length. The first block starts at 0 and each later one 2 after the previous `charEnd`. |
| Types.ChainedIdsDistinct | app/lib/docx-parser.ts:37 | The blocks of a chain have pairwise distinct IDs. |
| Text.TrimEmpty | app/lib/docx-parser.ts:29-30 | `trim()` gives the empty string exactly when every character is JavaScript whitespace. |
| Text.TrimIsTrimmed | app/lib/docx-parser.ts:29 | A trimmed text neither starts nor ends with whitespace. |
| Text.TrimStartSpec | app/lib/docx-parser.ts:29 | What `trimStart` drops is a whitespace prefix, and what it keeps is the rest, which does not start with whitespace. |
| Text.TrimEndSpec | app/lib/docx-parser.ts:29 | What `trimEnd` drops is a whitespace suffix, and what it keeps is the rest, which does not end with whitespace. |
| Text.AllCapsIffNoLower | app/lib/docx-parser.ts:104 | `text === text.toUpperCase()` holds exactly when the text has no lower-case ASCII letter. |
| Text.Truncate | app/lib/document-annotator.ts:73-77 | A text within the limit is kept. A longer one ends in `...` after a prefix of the text. For a limit of at least 3 the result fits, and a cut result has exactly that length. |
| Text.SplitPieces | app/lib/docx-parser.ts:26 | No piece of a split holds a match of the separator. |
| Text.WordsAreWords | app/lib/docx-parser.ts:76 | Every word counted for `wordCount` is non-empty and holds no whitespace. |
| Segmentation.SegmentSkip | app/lib/docx-parser.ts:29-30 | A whitespace-only paragraph adds no block. |
| Segmentation.SegmentAppend | app/lib/docx-parser.ts:33-57 | A non-blank paragraph appends exactly one block. The block is made from the trimmed paragraph with the next ID, the running offset and the number of list items so far. |
| Segmentation.SegmentContents | app/lib/docx-parser.ts:28-39 | For a block maker that keeps its text, the block contents are exactly the non-blank paragraphs, trimmed, in order. |
| Segmentation.KeptTrimmed | app/lib/docx-parser.ts:29-30 | Every kept paragraph is trimmed and non-empty. |
| Segmentation.KeptAllTrimmed | app/lib/pdf-parser.ts:35-38 | Paragraphs that are already trimmed and non-empty are all kept, unchanged. |
| Segmentation.SegmentChained | app/lib/docx-parser.ts:36-57 | For a block maker that keeps its text and offsets, the blocks form a chain: consecutive counter IDs, each spanning its content, 2 apart. |
| Segmentation.SegmentMakesOnly | app/lib/docx-parser.ts:33-56 | What the block maker guarantees of each block it makes holds of every block of the segmentation, with the count of the blocks before it. |
| Segmentation.JoinedTextLength | app/lib/docx-parser.ts:61 | For a chain, the `'\n\n'`-joined contents end exactly where the last block ends. |
| Segmentation.JoinedTextSlice | app/lib/docx-parser.ts:57-61 | For a chain, block `k`'s offsets lie inside the joined text, and the text between them is its content. |
| Segmentation.FullTextSlices | app/lib/docx-parser.ts:57-61 | Both facts at once, for every block of a chain. |
| DocxParser.NumberedPrefixEnd | app/lib/docx-parser.ts:89 | When the numbering prefix `\d+(\.\d+)*\.?\s+` matches, the text opens with a digit, and the match ends after whitespace with no whitespace following. |
| DocxParser.DetectBlockType | app/lib/docx-parser.ts:87-109 | The Word classifier returns a heading or a paragraph, never a list item. |
| DocxParser.DetectHeadingLevel | app/lib/docx-parser.ts:114-132 | The heading level is always between 1 and 6. |
| DocxParser.HeadingLevelOfNumber | app/lib/docx-parser.ts:116-120 | For text opening with a digit, the level is the number of dot-separated parts of the leading number, capped at 6. |
| DocxParser.HeadingLevelOfKeyword | app/lib/docx-parser.ts:122-131 | Without a leading digit: ARTICLE gives level 1, then SECTION gives 2, then all-caps text gives 1 and anything else 2. |
| DocxParser.ShortAllCapsIsHeading | app/lib/docx-parser.ts:87-109 | Every all-caps text of 4 to 79 characters is a heading, whatever else it matches. |
| DocxParser.ProseIsParagraph | app/lib/docx-parser.ts:87-109 | Text with a lower-case letter, no leading digit and no section keyword is a paragraph. |
| DocxParser.ListMatch | app/lib/docx-parser.ts:46-50 | When the list pattern matches, the captured indentation lies inside the text, and the marker counts as numbered exactly when it opens with a digit. |
| DocxParser.ListTail | app/lib/docx-parser.ts:46 | `\s+(.+)$` matches after the marker for some split between spaces and rest exactly when it matches at the split the model takes. Backtracking finds nothing more. |
| DocxParser.TrimmedListDepth | app/lib/docx-parser.ts:51 | On a trimmed, non-empty paragraph a list marker sits at position 0, so the list depth is 0, and it is numbered exactly when the text opens with a digit. |
| DocxParser.ParagraphBlockSpansText | app/lib/docx-parser.ts:36-43 | The block maker keeps the ID, the text and the offset it is given, and ends the block at the offset plus the text's length. |
| DocxParser.ParagraphBlockClassified | app/lib/docx-parser.ts:33-54 | Every block it makes is a list item exactly when the list pattern matches, and otherwise has the detected type. It has a level exactly when detected as a heading, and that level is `detectHeadingLevel`'s. List information exists exactly for list items: numbered or bullet by the marker, depth half the indent, index the count of earlier list items. |
| DocxParser.DocxMarkerShape | app/lib/docx-parser.ts:138-145 | A marker of the Word annotated text ends with the content and ` [/BLOCK]`. It opens with `\n### [BLOCK:id] ` for headings and with `[BLOCK:id] ` otherwise. |
| DocxParser.DocxAnnotatedTextSnoc | app/lib/docx-parser.ts:138-145 | Appending a block appends a blank line and its marker, so the text is one marker per block, in order. |
| DocxParser.NewParagraphBlock | app/lib/docx-parser.ts:33-54 | The block the loop body builds is the block maker's block for that paragraph. |
| DocxParser.SegmentParagraphs | app/lib/docx-parser.ts:28-58 | The paragraph loop produces exactly the segmentation of all paragraphs, and the ID counter advances by the number of blocks. |
| DocxParser.ParseDocx | app/lib/docx-parser.ts:26-82 | `parseDocx` from the extracted text gives the Word document of that text, and the counter advances by its block count. |
| DocxParser.DocxDocumentWellFormed | app/lib/docx-parser.ts:28-77 | The parsed document is a chain, and its contents are the kept paragraphs of the split. `blockCount` equals the number of blocks. The full text ends at the last block's end, and every block's content is the full text between its offsets. |
| DocxParser.DocxBlocksClassified | app/lib/docx-parser.ts:28-58 | Every block of a parsed Word document is classified as `ParagraphBlockClassified` says, counting the list items before it, and is trimmed and non-empty. |
| DocxParser.DocxClauseMapLevels | app/lib/docx-parser.ts:176-188 | Every clause-map entry of a parsed Word document has a level from 1 to 6. |
| DocxParser.NumberedCapsHeadingBecomesListItem | app/lib/docx-parser.ts:33-54 | The block made from `1. DEFINITIONS` is a numbered list item of depth 0 and list index 0 that still carries heading level 1, so it has no clause-map entry. |
| DocxParser.CreateBlockLookup | app/lib/docx-parser.ts:150-156 | The `forEach` loop builds a lookup whose keys are the block IDs. Each ID maps to the last index holding it, and to its own index when IDs are distinct. |
| DocxParser.FindBlockById | app/lib/docx-parser.ts:161-163 | A found block is one of the blocks and has the ID. Nothing is found exactly when no block has it. |
| DocxParser.FindBlockByIdFirst | app/lib/docx-parser.ts:161-163 | The block found is the one at the first index holding the ID. |
| DocxParser.FindBlocksByText | app/lib/docx-parser.ts:168-171 | No more blocks are found than there are blocks. |
| DocxParser.FindBlocksByTextMembers | app/lib/docx-parser.ts:168-171 | A block is found exactly when it is one of the blocks and its lower-cased content contains the lower-cased search text. |
| DocxParser.EmptySearchFindsAll | app/lib/docx-parser.ts:168-171 | The empty search text finds every block, in order. |
| DocxParser.SearchIgnoresCase | app/lib/docx-parser.ts:168-171 | A search text and its upper-cased form find the same blocks. |
| DocxParser.ExtractClauseMap | app/lib/docx-parser.ts:176-188 | There are no more entries than blocks. |
| DocxParser.ClauseMapAppend | app/lib/docx-parser.ts:176-188 | The clause map of two block lists in a row is their two clause maps in a row. |
| DocxParser.ClauseMapEntries | app/lib/docx-parser.ts:176-188 | There is one entry per heading block. An entry is exactly the ID, content and defaulted level of some heading block. |
| DocxParser.ClauseMapLevels | app/lib/docx-parser.ts:176-188 | When every heading carries a level from 1 to 6, so does every entry. |
| PdfParser.DetectBlockType | app/lib/pdf-parser.ts:87-114 | The PDF classifier returns a heading, a list item or a paragraph. A level is set exactly for headings, and it is 1 or 2. |
| PdfParser.DetectIgnoresSurroundingSpace | app/lib/pdf-parser.ts:88 | Classifying the trimmed text gives the same result as classifying the text. |
| PdfParser.KeywordIsLevelOne | app/lib/pdf-parser.ts:91-93 | ARTICLE, SECTION or EXHIBIT followed by a numeral is a level-1 heading. |
| PdfParser.NumberedHeadingLevels | app/lib/pdf-parser.ts:95-101 | Under 100 characters, `N. Cap…` is a level-1 heading, and otherwise `N.N Cap…` is a level-2 heading. |
| PdfParser.ShortAllCapsIsHeading | app/lib/pdf-parser.ts:87-106 | Trimmed all-caps text of 4 to 79 characters is a heading, list marker or not. |
| PdfParser.BulletIsListItem | app/lib/pdf-parser.ts:108-111 | A bullet line holding a lower-case letter is a list item without a level. |
| PdfParser.ProseIsParagraph | app/lib/pdf-parser.ts:87-114 | Trimmed text with a lower-case letter, no leading digit, no keyword and no list marker is a paragraph without a level. |
| PdfParser.ParagraphsTrimmed | app/lib/pdf-parser.ts:35-38 | Every paragraph is trimmed and non-empty. |
| PdfParser.PdfBlockSpansText | app/lib/pdf-parser.ts:46-52 | The block maker keeps the ID, the paragraph and the offset it is given, and ends the block at the offset plus the paragraph's length. |
| PdfParser.PageCount | app/lib/pdf-parser.ts:79 | The page count is at least 1, and it is the reported count whenever that is present and non-zero. |
| PdfParser.NewPdfBlock | app/lib/pdf-parser.ts:45-56 | The block the loop body builds is the block maker's block for that paragraph. |
| PdfParser.MakeBlocks | app/lib/pdf-parser.ts:44-60 | The block loop over trimmed, non-empty paragraphs produces exactly their segmentation, and the counter advances by the number of blocks. |
| PdfParser.ParsePdf | app/lib/pdf-parser.ts:34-82 | `parsePdf` from the raw text gives the PDF document of that text, and the counter advances by its block count. |
| PdfParser.PdfDocumentWellFormed | app/lib/pdf-parser.ts:35-79 | The contents are exactly the paragraphs, and the blocks form a chain. The full text is the raw text, `blockCount` equals the number of blocks, and the page count is at least 1. |
| PdfParser.PdfBlocksClassified | app/lib/pdf-parser.ts:45-56 | Every PDF block has the detected type and level and no list information. It has a level exactly when it is a heading, and that level is 1 or 2. |
| PdfParser.OffsetsNeedNotIndexFullText | app/lib/pdf-parser.ts:47-73 | For the raw text `" A"`, the one block spans `[0, 1)`, yet the full text there is a space, not its content. |
| PdfParser.CreateBlockLookup | app/lib/pdf-parser.ts:119-121 | The lookup's keys are exactly the block IDs. |
| PdfParser.LookupIsLastBlock | app/lib/pdf-parser.ts:119-121 | Each ID maps to the last block holding it. |
| PdfParser.LookupDistinctBlocks | app/lib/pdf-parser.ts:119-121 | With distinct IDs, each block's ID maps to the block itself. |
| Annotator.MarkerShape | app/lib/document-annotator.ts:14-19 | A marker opens with `[BLOCK:id]` and ends with ` content [/BLOCK]`. The next character is `[` (the start of `[Hn]`) exactly for headings. |
| Annotator.AnnotatedTextSnoc | app/lib/document-annotator.ts:14-19 | Appending a block appends a blank line and its marker, so the text is one marker per block, in order. |
| Annotator.CountersSnoc | app/lib/document-annotator.ts:31-40 | After one more block, a level-1 heading adds one section and resets the subsection count to 0. Any other heading adds one subsection; other blocks change neither. |
| Annotator.ReadableStep | app/lib/document-annotator.ts:28-42 | Block `i`'s segment is its prefix from the updated counters, then `[BLOCK:id] content [/BLOCK]`. |
| Annotator.NumberBlock | app/lib/document-annotator.ts:29-40 | One callback gives the counters' next values and the prefix they determine. |
| Annotator.ReadableAnnotatedText | app/lib/document-annotator.ts:24-44 | The counter-updating `map` gives the readable segments of all blocks joined by blank lines. |
| Annotator.SectionNumbersIncrease | app/lib/document-annotator.ts:32-35 | A later section heading has a strictly greater section number, so no two share one. |
| Annotator.Relevant | app/lib/document-annotator.ts:70 | A block is selected exactly when it is one of the blocks and its ID is asked for. |
| Annotator.ExtractQuote | app/lib/document-annotator.ts:65-78 | The referenced contents joined by spaces are kept when within the limit, and otherwise cut to a prefix plus `...`. For a limit of at least 3 the quote fits it, and a cut quote is exactly `maxLength` long. |
| Annotator.QuoteIgnoresIdOrder | app/lib/document-annotator.ts:65-78 | Two ID lists with the same members give the same quote: order and repetition do not matter. |
| Annotator.BadRefs | app/lib/document-annotator.ts:91-94 | An issue yields no message exactly when every one of its references names a block. |
| Annotator.InvalidRefsEmpty | app/lib/document-annotator.ts:90-96 | There are no invalid references exactly when every reference of every issue names a block. |
| Annotator.InvalidRefsCount | app/lib/document-annotator.ts:88-97 | There are exactly as many messages as there are pairs of an issue and one of its references that names no block. |
| Annotator.InvalidRefsMessages | app/lib/document-annotator.ts:88-97 | A message is reported exactly when some issue has a reference naming no block, and it is that issue's message for that reference. |
| Annotator.ValidateIssueBlockReferences | app/lib/document-annotator.ts:83-102 | The loops collect one message per bad reference (as many as the bad issue-reference pairs, and each the message of one of them). `valid` holds exactly when every reference of every issue names a block. |
| Annotator.IssuesForFacts | app/lib/document-annotator.ts:107-121 | An ID has issues listed exactly when some issue references it, and every issue listed is an input issue that references it. |
| Annotator.AddIssue | app/lib/document-annotator.ts:113-117 | The inner loop turns a map that indexes the issues so far into one that indexes them and the new issue. |
| Annotator.BuildBlockToIssueMap | app/lib/document-annotator.ts:107-121 | The map's keys are exactly the referenced IDs. Each maps to the issues referencing it, in issue order and once per reference. |
| Annotator.LastHeadingBefore | app/lib/document-annotator.ts:134-138 | A result is a heading below `k` with no heading between it and `k`. There is none exactly when no heading is below `k`. |
| Annotator.ParentHeading | app/lib/document-annotator.ts:126-141 | None for an absent ID, and none when no heading precedes the block's first index. Otherwise the nearest heading before it, which is never the block itself. |
| Annotator.FindParentHeading | app/lib/document-annotator.ts:126-141 | The backward loop returns exactly that parent heading. |
| Annotator.SectionEnd | app/lib/document-annotator.ts:160-166 | The end lies between `from` and the length. No block before it closes the section, and the block at it, if any, does. |
| Annotator.Section | app/lib/document-annotator.ts:146-169 | Empty exactly for an unknown ID or a non-heading. Otherwise it starts with the heading and is the contiguous run of blocks after it that close nothing, up to the next heading of level at most the heading's (missing levels as 1). |
| Annotator.GetBlocksInSection | app/lib/document-annotator.ts:146-169 | The collecting loop returns exactly the section. |
| Redline.RangeEdits | app/lib/redline-builder.ts:193-195 | An edit enters range processing exactly when it is a `replace_range` or `delete_range` edit with numeric offsets. |
| Redline.InsertAfterEdits | app/lib/redline-builder.ts:196 | An edit is an insertion exactly when it is an `insert_after` edit. |
| Redline.Clamp | app/lib/redline-builder.ts:202-203 | The result lies in `[0, len]`. It equals the input when that lies inside, 0 below it and `len` above it. |
| Redline.ClampAll | app/lib/redline-builder.ts:199-204 | One clamped span per range edit, in order. |
| Redline.NonEmpty | app/lib/redline-builder.ts:205-209 | A span survives exactly when `start < end`. |
| Redline.SortByStartPermutes | app/lib/redline-builder.ts:210 | The sort is a permutation. |
| Redline.SortByStartSorted | app/lib/redline-builder.ts:210 | The sort puts the spans in ascending order of start. |
| Redline.SortByStartStable | app/lib/redline-builder.ts:210 | Spans with the same start keep their input order. |
| Redline.SortSorted | app/lib/redline-builder.ts:210 | Sorting spans already in order changes nothing. |
| Redline.ValidSpans | app/lib/redline-builder.ts:199-210 | Every valid span is non-empty. |
| Redline.KeepFromFacts | app/lib/redline-builder.ts:213-222 | The kept spans are input spans starting at or after `lastEnd`, and each ends at or before the start of every later kept span. |
| Redline.ResolveWellFormed | app/lib/redline-builder.ts:193-222 | Applied spans are non-empty, in bounds, ascending and pairwise disjoint. Each comes from a range edit of the input and carries that edit's offsets clamped to `[0, len]`. |
| Redline.DroppedOverlapsKept | app/lib/redline-builder.ts:213-222 | Over sorted spans, one that is not kept starts before `lastEnd` or inside a kept span. |
| Redline.FirstWins | app/lib/redline-builder.ts:213-222 | Every valid span is applied or starts inside an applied one, so an overlapping later span loses to the earlier one. |
| Redline.TiesKeepInputOrder | app/lib/redline-builder.ts:210 | The valid spans starting at a given offset appear in the order of the input edits. |
| Redline.ResolveIdempotent | app/lib/redline-builder.ts:193-222 | Resolving an already resolved edit list gives the same list. |
| Redline.OverlapExample | app/lib/redline-builder.ts:213-222 | A delete of `[0, 10)` followed by a replace of `[5, 15)` in a block of length at least 15 applies only the delete. |
| Redline.SpanFlat | app/lib/redline-builder.ts:228-270 | In any view that ignores comment anchors, one applied edit reads as the unchanged gap before it, the deleted range, and the inserted text of a `replace_range` with text. |
| Redline.InsertViews | app/lib/redline-builder.ts:279-298 | An `insert_after` with text adds nothing to the original reading and `' ' + newText` to the revised one. It is one insertion with one revision ID. |
| Redline.EmptyRendering | app/lib/redline-builder.ts:225-276 | The range runs are empty only when no edit is applied and the cursor is at the end of the content. |
| Redline.RedlineAgreesWithClean | app/lib/redline-builder.ts:225-298 | The unchanged and inserted runs of the redline spell exactly `applyEditsCleanly`'s result for the same block and edits. |
| Redline.RedlineKeepsOriginal | app/lib/redline-builder.ts:225-303 | The unchanged and deleted runs of the redline spell exactly the block's content. |
| Redline.NothingApplied | app/lib/redline-builder.ts:274-303 | With no surviving range edit and no `insert_after` text, the redline is one unchanged run of the whole content, no revision ID is spent, and the clean text is the content. |
| Redline.RedlineChanges | app/lib/redline-builder.ts:239-298 | The changes in order: per applied edit, a deletion of its range, then an insertion for a `replace_range` with text. Then the `insert_after` insertions. Revision IDs run consecutively from the counter. |
| RedlineBuilder.DropOverlapping | app/lib/redline-builder.ts:213-222 | The overlap loop keeps exactly the resolver's spans. |
| RedlineBuilder.EmitRangeEdit | app/lib/redline-builder.ts:227-270 | One pass of the cursor loop pushes exactly the specified runs of that edit and advances the revision counter accordingly. |
| RedlineBuilder.RenderRanges | app/lib/redline-builder.ts:225-276 | The cursor loop and the remaining text give exactly the specified range runs and revision counter. |
| RedlineBuilder.AppendInsertRuns | app/lib/redline-builder.ts:279-298 | The `insert_after` loop appends exactly the specified insertion runs and advances the counter accordingly. |
| RedlineBuilder.ApplyEditsToBlock | app/lib/redline-builder.ts:182-306 | The runs and the new revision counter are exactly the block's redline rendering. |
| RedlineBuilder.MergeRanges | app/lib/redline-builder.ts:520-530 | The clean cursor loop gives exactly the specified merge of the applied edits and the rest of the block. |
| RedlineBuilder.AppendInserts | app/lib/redline-builder.ts:533-535 | The clean `insert_after` loop appends exactly the specified insertions. |
| RedlineBuilder.ApplyEditsCleanly | app/lib/redline-builder.ts:489-538 | The result is exactly the block's clean text. |
| Assembler.ClassificationLabel | app/lib/redline-builder.ts:52-56 | `red` is labelled escalation required, `yellow` counsel review, and every other value standard approval. |
| Assembler.ClassificationColor | app/lib/redline-builder.ts:44-48 | The three classification colours, and `000000` for every other value. |
| Assembler.AuthorOr | app/lib/redline-builder.ts:319 | The given author when non-empty, otherwise `Consello Legal AI`. |
| Assembler.KnownEditsMembers | app/lib/redline-builder.ts:325-330 | An edit survives validation exactly when it is a selected edit whose block exists. |
| Assembler.EditsForMembers | app/lib/redline-builder.ts:333-338 | A block's group holds exactly the edits naming that block. |
| Assembler.GroupEdits | app/lib/redline-builder.ts:333-338 | The grouping loop maps exactly the edited block IDs, each to its edits in input order. |
| Assembler.Commented | app/lib/redline-builder.ts:345-346 | Every edit selected for a comment carries comment text. |
| Assembler.AssignCommentIds | app/lib/redline-builder.ts:341-359 | The comment loop gives exactly the specified ID map and comment list, counting from 1. |
| Assembler.CommentsShape | app/lib/redline-builder.ts:345-358 | There is one comment per commented edit. The `k`-th comment has ID `counter + k`, initials `CLA`, the author and the `k`-th commented edit's text. |
| Assembler.CommentNumbers | app/lib/redline-builder.ts:341-359 | The comment IDs are 1, 2, … in creation order, one per commented edit. |
| Assembler.CommentKeys | app/lib/redline-builder.ts:341-359 | An edit ID is in the comment map exactly when some edit of the list has that ID and a comment. |
| Assembler.CommentTargets | app/lib/redline-builder.ts:341-359 | Every mapped comment ID names an existing comment, and that comment holds a commented edit's text for that edit ID. |
| Assembler.CommentIdsDistinct | app/lib/redline-builder.ts:341-359 | Distinct edit IDs never share a comment ID. |
| Assembler.EmitBlock | app/lib/redline-builder.ts:419-440 | One pass of the block loop gives exactly the specified step for that block. |
| Assembler.RenderBody | app/lib/redline-builder.ts:416-441 | The block loop gives exactly the specified body, with revision IDs from 1 and no section emitted at the start. |
| Assembler.BodyLabelsFresh | app/lib/redline-builder.ts:424-433 | The section headings emitted are none of those already emitted, and none repeats. |
| Assembler.BodyLabelsCover | app/lib/redline-builder.ts:424-433 | A heading is emitted exactly when it is the label of a later edited block and was not emitted before. |
| Assembler.BlockRendererFaithful | app/lib/redline-builder.ts:436 | The block renderer numbers its revisions consecutively, reads as the content without insertions, and reads as the clean merge without deletions. |
| Assembler.BodyRevisions | app/lib/redline-builder.ts:419-441 | For such a renderer, the revision IDs of the whole body run consecutively from the counter's start. |
| Assembler.BodyOriginals | app/lib/redline-builder.ts:419-441 | For such a renderer, the body reads, without insertions, as the contents of the edited blocks in document order. |
| Assembler.BodyRevised | app/lib/redline-builder.ts:419-441 | For such a renderer, the body reads, without deletions, as the clean merges of the edited blocks in document order. |
| Assembler.NumberSteps | app/lib/redline-builder.ts:451-459 | One line per next step: step `i` reads `${i + 1}. ${step}`. |
| Assembler.BuildRedlineDocx | app/lib/redline-builder.ts:313-483 | `buildRedlineDocx`, up to the Word objects, gives exactly the specified redline document. |
| Assembler.UnknownEditIgnored | app/lib/redline-builder.ts:325-330 | Adding an edit on a block the document lacks leaves the redline document unchanged. |
| Assembler.RedlineSectionsOnce | app/lib/redline-builder.ts:416-433 | In the redline document no section heading repeats, and a heading appears exactly when it labels some edited block. |
| Assembler.RedlineRevisionIds | app/lib/redline-builder.ts:322 | The revision IDs of the redline document are 1, 2, …, n in order. |
| Assembler.RedlineTexts | app/lib/redline-builder.ts:419-441 | One edited paragraph per edited block, in document order. Each reads as the block's content without insertions and as its clean merge without deletions. |
| Assembler.CleanHeadingLevel | app/lib/redline-builder.ts:619-625 | The Word heading level lies in 1..3, and equals the block's level, defaulting to 2, whenever that lies in 1..3. |
| Assembler.CleanItemOf | app/lib/redline-builder.ts:610-634 | A block contributes nothing exactly when its final text is blank. Otherwise it contributes that text, as a heading exactly when the block is one. |
| Assembler.CleanBodyFrom | app/lib/redline-builder.ts:609-635 | At most one item per block, every item non-blank with a heading level in 1..3. |
| Assembler.CleanBlock | app/lib/redline-builder.ts:610-634 | One pass of the clean block loop gives exactly that block's item. |
| Assembler.RenderCleanBody | app/lib/redline-builder.ts:609-635 | The clean block loop gives exactly the specified clean body. |
| Assembler.CleanMatchesRedline | app/lib/redline-builder.ts:609-635 | An edited block with a non-blank result is shown with exactly the redline's revised reading of that block. |
| Assembler.EditCountLabel | app/lib/redline-builder.ts:584-587 | `1 edit applied` for one edit, and `n edits applied` for any other count. |
| Assembler.DocName | app/lib/redline-builder.ts:561 | The document's file name, else the option's file name, else `Document`. |
| Assembler.BuildCleanDocx | app/lib/redline-builder.ts:544-656 | `buildCleanDocx`, up to the Word objects, gives exactly the specified clean document. |
| Report.ClassificationStyle | app/lib/report-generator.ts:20-26 | The escalation style exactly for `red`, counsel review exactly for `yellow`, and standard approval exactly for every other value. |
| Report.SeverityStyle | app/lib/report-generator.ts:28-31 | Critical exactly for `red`, a warning for every other value. |
| Report.IconsDiffer | app/lib/report-generator.ts:33-44 | The check icon and the cross icon are different. |
| Report.StatusIcon | app/lib/report-generator.ts:33-44 | The check icon exactly for `pass`, and the cross icon exactly for every other status. |
| Report.ReplaceAll | app/lib/report-generator.ts:48-51 | A text that does not hold the character is returned unchanged. |
| Report.EscapeHtml | app/lib/report-generator.ts:46-47 | A missing text escapes to `''`. |
| Report.EscapeOneChar | app/lib/report-generator.ts:48-51 | The four passes, in the source's order, turn one character into its entity, or leave it alone. |
| Report.EscapeHtmlIsEscaped | app/lib/report-generator.ts:46-52 | The four chained passes agree with a one-pass escaper that maps each character independently. |
| Report.EscapedIsSafe | app/lib/report-generator.ts:48-51 | The escaped text holds no `<`, `>` or `"`. |
| Report.EscapeHtmlIsSafe | app/lib/report-generator.ts:46-52 | `escapeHtml` never outputs `<`, `>` or `"`. |
| Report.AmpersandsOpenEntities | app/lib/report-generator.ts:48-51 | Every `&` of the escaped text opens `&amp;`, `&lt;`, `&gt;` or `&quot;`. |
| Report.EscapeHtmlEntities | app/lib/report-generator.ts:46-52 | Every `&` of `escapeHtml`'s output opens one of the four entities. |
| Report.UnescapeStep | app/lib/report-generator.ts:48-51 | Unescaping one character's escape, followed by anything, gives back that character, followed by the unescaped rest. |
| Report.UnescapeEscaped | app/lib/report-generator.ts:48-51 | Unescaping the escaped text gives back the input. |
| Report.EscapeHtmlRoundTrip | app/lib/report-generator.ts:46-52 | Unescaping `escapeHtml`'s output gives back the input. |
| Report.EscapedPlain | app/lib/report-generator.ts:48-51 | A text with none of the four special characters escapes to itself. |
| Report.EscapeHtmlPlain | app/lib/report-generator.ts:46-52 | `escapeHtml` returns such a text unchanged, and `''` for a missing one. |
| Report.EscapedLength | app/lib/report-generator.ts:48-51 | Escaping never shortens a text, and keeps its length exactly when it holds no special character. |
| Playbook.ThresholdsOrdered | app/lib/playbook.ts:44-120 | In the shipped clause data, every threshold satisfies `min <= standard <= max`. |
| Playbook.LinesUnlines | app/lib/playbook.ts:194-237 | Lines without newlines, each written with a trailing newline, read back as the same lines. |
| Playbook.ClauseRangeLine | app/lib/playbook.ts:197-204 | A clause writes 5 lines with a range and 4 without: `### category`, the standard position, then the escalation trigger second to last. An acceptable-range line appears exactly when the range is present and non-empty. |
| Playbook.ItemLinesAt | app/lib/playbook.ts:212-223 | The item lines are one per item, in order. |
| Playbook.SectionItems | app/lib/playbook.ts:208-226 | A section is its header, its intro, its items and a blank line. Required Carveouts are numbered from 1 in order, Prohibited Provisions are bare bullets, and other sections pair each bold label with its detail. |
| Playbook.PromptSections | app/lib/playbook.ts:195-228 | Exactly three lines are top-level headers: Contract Review Positions first, then NDA Screening Criteria, then Risk Classification. |
| Playbook.PromptOpening | app/lib/playbook.ts:195 | The prompt starts with `## Contract Review Positions` and a blank line. |
| Playbook.PromptReadsBack | app/lib/playbook.ts:194-237 | When no field holds a newline, reading the prompt back line by line gives exactly its lines. |
| Playbook.SerializePlaybook | app/lib/playbook.ts:194-237 | The markdown is the prompt's lines, each followed by a newline. |
| Playbook.AppendClauses | app/lib/playbook.ts:197-204 | The clause loop appends exactly the lines of every clause, in order. |
| Playbook.AppendSections | app/lib/playbook.ts:208-226 | The screening loop appends exactly the lines of every section, in order. |
| Playbook.AppendSection | app/lib/playbook.ts:209-225 | One pass appends exactly that section's lines. |
| Playbook.AppendNumbered | app/lib/playbook.ts:212-214 | The numbered items are appended in order. |
| Playbook.AppendBulleted | app/lib/playbook.ts:217-219 | The bare bullets are appended in order. |
| Playbook.AppendDetailed | app/lib/playbook.ts:221-223 | The labelled items are appended in order. |
| Playbook.AppendLevels | app/lib/playbook.ts:230-234 | The classification loop appends exactly the lines of every level, in order. |
| Playbook.ToPromptString | app/lib/playbook.ts:194-237 | `toPromptString` is the serialisation of the shipped playbook data. |
| ClauseMap.SeverityRank | app/components/ClauseMap.jsx:106-110 | The rank is at most 2. It is 2 exactly for `red` and 1 exactly for `yellow`. |
| ClauseMap.MaxSeverity | app/components/ClauseMap.jsx:106-110 | The result is `red`, `yellow` or `green`, and no issue outranks it. An empty list gives `green`. |
| ClauseMap.MaxSeverityRank | app/components/ClauseMap.jsx:106-110 | Its rank is exactly the highest rank among the issues. |
| ClauseMap.TruncateLabel | app/components/ClauseMap.jsx:112-116 | Empty text stays empty, and text within the limit is kept. Longer text becomes a prefix plus `...`, exactly `maxLength` long (3 for a limit below 3). |
| ClauseMap.ItemsInOrder | app/components/ClauseMap.jsx:28-65 | Item `j` is the item of the `j`-th listed block, and the listed blocks appear in increasing document order. A block is listed exactly when it is a heading or has an issue. |
| ClauseMap.MarkerSection | app/components/ClauseMap.jsx:44-59 | A non-heading gives a marker. Its parent section is none exactly when no heading precedes it, and otherwise the nearest earlier heading's ID. Level 2 means a heading precedes; with non-empty heading IDs, a preceding heading also means level 2. |
| ClauseMap.IssuesForCount | app/components/ClauseMap.jsx:15-25 | The issues listed under an ID are as many as the references to it, over all issues. |
| ClauseMap.ItemIssues | app/components/ClauseMap.jsx:34-57 | An item's `issueCount` is the number of references to its block. For a listed block `hasIssues` holds exactly when that count is positive, and the maximum severity has the highest rank among its issues. |
| ClauseMap.BuildMapItems | app/components/ClauseMap.jsx:15-65 | The loop with `currentSection` gives exactly the items of the listed blocks. |
| ExportRoute.OrDefault | app/api/export-redline/route.ts:31-33 | The value when present and non-empty, otherwise the fallback. |
| ExportRoute.ResolveOptions | app/api/export-redline/route.ts:18-34 | Author and file name are never empty: a present non-empty value is kept, otherwise the defaults are used. Comments are off exactly when the client sent `false`. |
| ExportRoute.Disposition | app/api/export-redline/route.ts:51-56 | For a non-empty file name, the header is `attachment; filename="name"`. |
| ExportRoute.Post | app/api/export-redline/route.ts:5-58 | 401 exactly when the password does not match, then 400 exactly when the analysis is missing, and a file otherwise. The file has the Word content type and the resolved file name. It is the redline exactly when there are selected edits and a parsed document, and the clause review otherwise. |
| ExportRoute.UnauthorizedIgnoresBody | app/api/export-redline/route.ts:8-11 | With a wrong password, any two requests get the same 401, whatever their bodies. |
| ExportRoute.UnknownEditsStillRedline | app/api/export-redline/route.ts:38-45 | Edits that all name unknown blocks still take the redline path, where validation then keeps none of them. |

## Left out

- **Binary extraction.** Text extraction by `mammoth` and `pdf-parse` is foreign library code. The parsers start from the extracted text (`textResult.value`, `data.text`), and the HTML flag takes the extracted HTML as a parameter.
- **Block IDs.** `uuidv4()` is replaced by a counter (`MakeId`), which is threaded through the parsers.
- **Word objects.** The `docx` objects and `Packer.toBuffer` are replaced by plain datatypes: runs, items, comments and the output records. Fonts, colours of text runs, headers, footers and tables are left out.
- **Dates and times.** `nowISO`, `dateLabel`, `parseDate` and `comment.date` are nondeterministic and are not modelled.
- **Diagnostics.** The `console.warn` and `console.error` calls are logging only.
- **Clause-review document.** `buildClauseReviewDocx` and `generateReportHTML` are templating. Their styles, icons and escaper are modelled; the clause review itself is represented by its inputs (`ExportRoute.ClauseReview`).
- **`generateDocumentSummary`.** `generateDocumentSummary` and the block-reference instructions are prose templates outside the core.
- **Error path of `POST`.** The catch path (500 on a thrown error) is not modelled: the model's builders do not throw.
- ExportRoute.Post: `includeComments` is modelled as an optional boolean. A non-boolean value sent by the client falls into "included", as `!== false` does, but such values cannot be written in the model.
- ExportRoute.Post: `selectedEdits`, `options` and `parsedDocument` sent as `null` are modelled as absent. The source would throw on a `null` `selectedEdits` or `options`.
- Annotator.BuildBlockToIssueMap: the fallback of `issue.sourceBlockIds` to `[]` is not modelled; the IDs are always present, as the issue type requires.
- DocxParser.DetectBlockType: its own contract says only that the result is a heading or a paragraph. The all-caps and prose branches are stated by `ShortAllCapsIsHeading` and `ProseIsParagraph`; the numbered-title and keyword branches have no lemma of their own.
- DocxParser.FindBlocksByText: its own contract gives only a length bound. Which blocks are found is stated by `DocxParser.FindBlocksByTextMembers`, `EmptySearchFindsAll` and `SearchIgnoresCase`.
- DocxParser.ExtractClauseMap: its own contract gives only a length bound. The entries are stated by `DocxParser.ClauseMapEntries`, `ClauseMapAppend` and `ClauseMapLevels`.
- PdfParser.CreateBlockLookup: its own contract gives only the keys. What each key maps to is stated by `LookupIsLastBlock` and `LookupDistinctBlocks`.
- Redline.RangeEdits: like `Redline.InsertAfterEdits` and `Redline.NonEmpty`, its contract states membership, not order. The order that matters is stated by `Redline.TiesKeepInputOrder`.
- Redline.ValidSpans: its own contract states only that every span is non-empty. Provenance, bounds and order are stated by `Redline.ResolveWellFormed`.
- Report.EscapeHtml: its own contract covers only the missing text. The escaping itself is stated by `EscapeHtmlIsEscaped`, `EscapeHtmlIsSafe`, `EscapeHtmlEntities` and `EscapeHtmlRoundTrip`.
- Assembler.CleanBodyFrom: its own contract gives a length bound and that every item is shown. The item of each block is stated by `Assembler.CleanItemOf`.
- **Edit offsets are integers.** `startChar` and `endChar` are modelled as `Option<int>`. The source accepts any JavaScript number: it clamps, sorts and tests overlap on the number as given, and only `slice` truncates it. Fractional, `NaN` and `Infinity` offsets are not captured. For example, in the source `[0, 2.5)` followed by `[2, 4)` drops the second edit, `[2.2, 2.7)` emits an empty deletion, and `NaN` offsets are filtered out.
- **Default file names.** `parseDocx` and `parsePdf` default their file name to `document.docx` and `document.pdf`. `DocxParser.ParseDocx` and `PdfParser.ParsePdf` take the file name as a required parameter, so the default is not modelled.
- Assembler.ClassificationColor: `CLASSIFICATION_COLORS[c]` is a plain-object lookup, modelled as a map. Keys inherited from the object prototype, such as `constructor`, yield a function in the source but `000000` in the model.
- **Case mapping is ASCII only.** `toUpperCase` and `toLowerCase` are restricted to ASCII letters, so non-ASCII letters count as neither case.
- **String length.** JavaScript measures strings in UTF-16 code units; the model counts characters.
- Playbook.PromptReadsBack: stated over any playbook whose fields are single lines. The shipped data is not proved to satisfy this; `ToPromptString` itself is proved exactly.
- **UI rendering.** The clause-map markup, `DocumentViewer` and the other React components are user-interface code.
- **Unrelated routes.** The analysis route, the authentication routes and the upload routes are network and request plumbing.
