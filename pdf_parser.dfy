/**
 * The PDF segmenter (app/lib/pdf-parser.ts): from the raw text the extractor
 * hands back to the trimmed paragraphs, the typed and offset-tracked blocks,
 * the annotated text and the counts, with the PDF variant of the block
 * classifier and the identifier-to-block lookup.
 */
module PdfParser {
  import opened Wrappers
  import opened Text
  import opened Types
  import opened Segmentation
  import Annotator

  // ---------------------------------------------------------------------------
  // detectBlockType
  // ---------------------------------------------------------------------------

  /** What `detectBlockType` returns: a block type and, for headings, a level. */
  datatype Detected = Detected(kind: BlockType, level: Option<int>)

  /** `[IVXLC\d]` under the `i` flag. */
  predicate IsNumeral(c: char)
  {
    c in "IVXLCivxlc" || IsDigit(c)
  }

  /** `/^kw\s+[IVXLC\d]+/i`: the keyword, whitespace, then a roman numeral or a digit. */
  predicate NumeralAfter(text: string, kw: string)
  {
    OpensWith(text, kw) && WhitespaceRunEnd(text, |kw|) < |text| && IsNumeral(text[WhitespaceRunEnd(text, |kw|)])
  }

  /** `/^(ARTICLE|SECTION|EXHIBIT)\s+[IVXLC\d]+/i`. */
  predicate KeywordHeading(text: string)
  {
    NumeralAfter(text, "ARTICLE") || NumeralAfter(text, "SECTION") || NumeralAfter(text, "EXHIBIT")
  }

  /**
   * `\s+[A-Z]` from `i`: whitespace, then an upper-case letter. The
   * whitespace can only be taken whole, as a letter is not whitespace.
   */
  predicate CapitalAfterSpace(text: string, i: nat)
    requires i <= |text|
  {
    var w := WhitespaceRunEnd(text, i);
    i < w < |text| && IsUpperAZ(text[w])
  }

  /** `/^\d+\.\s+[A-Z]/`: a number, a dot, whitespace and a capital. */
  predicate NumberedCapital(text: string)
  {
    var d := DigitRun(text, 0);
    0 < d < |text| && text[d] == '.' && CapitalAfterSpace(text, d + 1)
  }

  /** `/^\d+\.\d+\.?\s+[A-Z]/`: a two-part number, an optional dot, whitespace and a capital. */
  predicate SubNumberedCapital(text: string)
  {
    var d := DigitRun(text, 0);
    0 < d < |text| && text[d] == '.' && DigitRun(text, d + 1) > 0
    && var e := d + 1 + DigitRun(text, d + 1);
       CapitalAfterSpace(text, if e < |text| && text[e] == '.' then e + 1 else e)
  }

  /** `/^[•●○\-\*]\s/` or `/^\([a-z]\)\s/i`: a bullet, or a letter in parentheses, then whitespace. */
  predicate ListStart(text: string)
  {
    || (|text| >= 2 && text[0] in "•●○-*" && IsWhitespace(text[1]))
    || (|text| >= 4 && text[0] == '(' && (IsLowerAZ(text[1]) || IsUpperAZ(text[1])) && text[2] == ')'
        && IsWhitespace(text[3]))
  }

  /** `detectBlockType` of the PDF parser: the heading tests in order, then the list test, else a paragraph. */
  function DetectBlockType(text: string): (r: Detected)
    ensures r.level.Some? <==> r.kind == Heading
    ensures r.level.Some? ==> r.level.value == 1 || r.level.value == 2
    ensures r.kind == Heading || r.kind == ListItem || r.kind == Paragraph
  {
    var trimmed := Trim(text);
    if KeywordHeading(trimmed) then Detected(Heading, Some(1))
    else if NumberedCapital(trimmed) && |trimmed| < 100 then Detected(Heading, Some(1))
    else if SubNumberedCapital(trimmed) && |trimmed| < 100 then Detected(Heading, Some(2))
    else if ShortAllCaps(trimmed) then Detected(Heading, Some(1))
    else if ListStart(trimmed) then Detected(ListItem, None)
    else Detected(Paragraph, None)
  }

  /** The classification does not see the whitespace around the text. */
  lemma DetectIgnoresSurroundingSpace(text: string)
    ensures DetectBlockType(Trim(text)) == DetectBlockType(text)
  {
    TrimIsTrimmed(text);
    TrimOfTrimmed(Trim(text));
  }

  /** ARTICLE, SECTION or EXHIBIT followed by a numeral is a level-1 heading, whatever follows. */
  lemma KeywordIsLevelOne(text: string)
    requires IsTrimmed(text) && KeywordHeading(text)
    ensures DetectBlockType(text) == Detected(Heading, Some(1))
  {
    TrimOfTrimmed(text);
  }

  /** Any trimmed all-caps text of 4 to 79 characters is a heading of level 1 or 2, list marker or not. */
  lemma ShortAllCapsIsHeading(text: string)
    requires IsTrimmed(text) && IsAllCaps(text) && 3 < |text| < 80
    ensures DetectBlockType(text).kind == Heading
  {
    TrimOfTrimmed(text);
  }

  /**
   * Trimmed text holding a lower-case letter that opens with neither a digit,
   * a section keyword nor a list marker is a paragraph.
   */
  lemma ProseIsParagraph(text: string)
    requires IsTrimmed(text)
    requires exists k :: 0 <= k < |text| && IsLowerAZ(text[k])
    requires |text| == 0 || !IsDigit(text[0])
    requires !KeywordHeading(text) && !ListStart(text)
    ensures DetectBlockType(text) == Detected(Paragraph, None)
  {
    TrimOfTrimmed(text);
    var k :| 0 <= k < |text| && IsLowerAZ(text[k]);
    AllCapsIffNoLower(text);
  }

  /** A bullet list line with a lower-case letter is a list item. */
  lemma BulletIsListItem(text: string)
    requires IsTrimmed(text) && |text| >= 2 && text[0] in "•●○-*" && IsWhitespace(text[1])
    requires exists k :: 0 <= k < |text| && IsLowerAZ(text[k])
    ensures DetectBlockType(text) == Detected(ListItem, None)
  {
    TrimOfTrimmed(text);
    var k :| 0 <= k < |text| && IsLowerAZ(text[k]);
    AllCapsIffNoLower(text);
    NoKeyword(text);
  }

  /** The level of a numbered heading is the number of its parts, one or two. */
  lemma NumberedHeadingLevels(text: string)
    requires IsTrimmed(text) && 0 < |text| < 100 && IsDigit(text[0])
    ensures NumberedCapital(text) ==> DetectBlockType(text) == Detected(Heading, Some(1))
    ensures !NumberedCapital(text) && SubNumberedCapital(text) ==> DetectBlockType(text) == Detected(Heading, Some(2))
  {
    TrimOfTrimmed(text);
    NoKeyword(text);
  }

  /** Text opening with a character other than a letter A, S or E (in either case) opens with no section keyword. */
  lemma NoKeyword(text: string)
    requires |text| > 0 && ToUpperChar(text[0]) != 'A' && ToUpperChar(text[0]) != 'S' && ToUpperChar(text[0]) != 'E'
    ensures !KeywordHeading(text)
  {
    if |text| > 7 {
      assert ToUpper(text[..7])[0] == ToUpperChar(text[0]);
    }
  }

  // ---------------------------------------------------------------------------
  // The segmentation loop of parsePdf
  // ---------------------------------------------------------------------------

  /**
   * `rawText.split(/\n\s*\n|\f/).map(p => p.trim()).filter(p => p.length > 0)`:
   * the pieces between blank lines and form feeds, trimmed, the empty ones dropped.
   */
  function Paragraphs(rawText: string): seq<string>
  {
    var parts := Split(rawText, BlankLinesOrFormFeed);
    Kept(parts, |parts|)
  }

  /** Every paragraph is trimmed and non-empty. */
  lemma ParagraphsTrimmed(rawText: string)
    ensures forall k :: 0 <= k < |Paragraphs(rawText)| ==>
      IsTrimmed(Paragraphs(rawText)[k]) && Paragraphs(rawText)[k] != ""
  {
    var parts := Split(rawText, BlankLinesOrFormFeed);
    KeptTrimmed(parts, |parts|);
    forall k | 0 <= k < |Paragraphs(rawText)|
      ensures IsTrimmed(Paragraphs(rawText)[k]) && Paragraphs(rawText)[k] != ""
    {
      assert Paragraphs(rawText)[k] in Kept(parts, |parts|);
    }
  }

  /** A trimmed non-empty paragraph trims to itself and is not blank. */
  lemma ParagraphIsKept(paragraph: string)
    requires IsTrimmed(paragraph) && paragraph != ""
    ensures Trim(paragraph) == paragraph && !AllWhitespace(paragraph)
  {
    TrimOfTrimmed(paragraph);
    TrimEmpty(paragraph);
  }

  /**
   * The block the loop makes for a paragraph: its detected type, and its
   * level when the detected level is set (`if (blockType.level)`).
   */
  function PdfBlock(t: string, id: string, offset: int, listsBefore: nat): Block
  {
    var d := DetectBlockType(t);
    Block(id, d.kind, t, offset, offset + |t|, if d.level.Some? && d.level.value != 0 then d.level else None, None)
  }

  /** `PdfBlock` keeps the identifier, the text and the offsets it is given. */
  lemma PdfBlockSpansText()
    ensures SpansText(PdfBlock)
  {
  }

  /** The type and level of a PDF block are the detected ones; PDF blocks carry no list information. */
  predicate Classified(b: Block, listsBefore: nat)
  {
    && b.kind == DetectBlockType(b.content).kind
    && b.level == DetectBlockType(b.content).level
    && b.listInfo.None?
  }

  lemma PdfBlockClassified()
    ensures MakesOnly(PdfBlock, Classified)
  {
  }

  /** `data.numpages || 1`: the page count the extractor reports, or 1 when it reports none or zero. */
  function PageCount(numpages: Option<nat>): (n: nat)
    ensures n >= 1
    ensures numpages.Some? && numpages.value != 0 ==> n == numpages.value
  {
    if numpages.Some? && numpages.value != 0 then numpages.value else 1
  }

  /** The `m`-flag `^`: position `p` starts the text or follows a line terminator. */
  predicate LineStartAt(s: string, p: nat)
    requires p <= |s|
  {
    p == 0 || IsLineTerminator(s[p - 1])
  }

  /**
   * `\s*\d+\.\s` from `p`. The whitespace and the digits can only be taken
   * whole: a digit is not whitespace and a dot is not a digit.
   */
  predicate NumberedLineAt(s: string, p: nat)
    requires p <= |s|
  {
    var w := WhitespaceRunEnd(s, p);
    var d := DigitRun(s, w);
    d > 0 && w + d + 1 < |s| && s[w + d] == '.' && IsWhitespace(s[w + d + 1])
  }

  /** `/^\s*\d+\.\s/m.test(s)`. */
  predicate HasNumberedLine(s: string)
  {
    exists p :: 0 <= p < |s| && LineStartAt(s, p) && NumberedLineAt(s, p)
  }

  /** `rawText.includes('•') || rawText.includes('●') || /^\s*\d+\.\s/m.test(rawText)`. */
  predicate HasTablesOrLists(rawText: string)
  {
    Contains(rawText, "•") || Contains(rawText, "●") || HasNumberedLine(rawText)
  }

  /**
   * What `parsePdf` returns for the extracted text and page count: the blocks
   * of the trimmed paragraphs, the raw text itself as the full text, the
   * annotated text of the blocks and the counts.
   */
  function PdfDocument(rawText: string, numpages: Option<nat>, filename: string, firstId: nat): ParsedDocument
  {
    var paragraphs := Paragraphs(rawText);
    var blocks := Segment(paragraphs, |paragraphs|, firstId, PdfBlock);
    ParsedDocument(filename, blocks, rawText, Annotator.AnnotatedText(blocks),
      Metadata(|Words(rawText)|, |blocks|, HasTablesOrLists(rawText), Some(PageCount(numpages))))
  }

  /**
   * The block the loop of `parsePdf` makes for `paragraph` (`listsBefore`
   * only names the block maker's argument: PDF blocks carry no list index).
   */
  method NewPdfBlock(paragraph: string, id: string, charPosition: int, ghost listsBefore: nat) returns (block: Block)
    ensures block == PdfBlock(paragraph, id, charPosition, listsBefore)
  {
    var blockType := DetectBlockType(paragraph);
    block := Block(id, blockType.kind, paragraph, charPosition, charPosition + |paragraph|, None, None);
    if blockType.level.Some? && blockType.level.value != 0 {
      block := block.(level := blockType.level);
    }
  }

  /**
   * `parsePdf` from the extracted text on; `firstId` is the identifier
   * counter's value on entry, `nextId` its value on return.
   */
  method ParsePdf(rawText: string, numpages: Option<nat>, filename: string, firstId: nat)
    returns (doc: ParsedDocument, nextId: nat)
    ensures doc == PdfDocument(rawText, numpages, filename, firstId)
    ensures nextId == firstId + |doc.blocks|
  {
    var paragraphs := Paragraphs(rawText);
    ParagraphsTrimmed(rawText);
    var blocks;
    blocks, nextId := MakeBlocks(paragraphs, firstId);
    var annotatedText := Annotator.AnnotatedText(blocks);
    doc := ParsedDocument(filename, blocks, rawText, annotatedText,
      Metadata(|Words(rawText)|, |blocks|, HasTablesOrLists(rawText), Some(PageCount(numpages))));
  }

  /** The block loop of `parsePdf` over the trimmed, non-empty paragraphs. */
  method MakeBlocks(paragraphs: seq<string>, firstId: nat) returns (blocks: seq<Block>, nextId: nat)
    requires forall k :: 0 <= k < |paragraphs| ==> IsTrimmed(paragraphs[k]) && paragraphs[k] != ""
    ensures blocks == Segment(paragraphs, |paragraphs|, firstId, PdfBlock)
    ensures nextId == firstId + |blocks|
  {
    blocks := [];
    var charPosition: int := 0;
    nextId := firstId;
    for i := 0 to |paragraphs|
      invariant blocks == Segment(paragraphs, i, firstId, PdfBlock)
      invariant charPosition == NextOffset(blocks)
      invariant nextId == firstId + |blocks|
    {
      var paragraph := paragraphs[i];
      ParagraphIsKept(paragraph);
      var block := NewPdfBlock(paragraph, MakeId(nextId), charPosition, CountListItems(blocks));
      SegmentAppend(paragraphs, i, firstId, PdfBlock, blocks, paragraph, nextId, charPosition, block);
      blocks := blocks + [block];
      nextId := nextId + 1;
      charPosition := charPosition + |paragraph| + 2;
    }
  }

  /**
   * The document `parsePdf` returns: one block per paragraph holding it,
   * chained identifiers and offsets, the raw text as the full text, a page
   * count of at least 1 and `blockCount` the number of blocks.
   */
  lemma PdfDocumentWellFormed(rawText: string, numpages: Option<nat>, filename: string, firstId: nat)
    ensures var doc := PdfDocument(rawText, numpages, filename, firstId);
      && Contents(doc.blocks) == Paragraphs(rawText)
      && Chained(doc.blocks, firstId)
      && doc.fullText == rawText
      && doc.metadata.blockCount == |doc.blocks|
      && doc.metadata.pageCount.Some? && doc.metadata.pageCount.value >= 1
  {
    var paragraphs := Paragraphs(rawText);
    ParagraphsTrimmed(rawText);
    KeptAllTrimmed(paragraphs, |paragraphs|);
    assert paragraphs[..|paragraphs|] == paragraphs;
    PdfBlockSpansText();
    SegmentContents(paragraphs, |paragraphs|, firstId, PdfBlock);
    SegmentChained(paragraphs, |paragraphs|, firstId, PdfBlock);
  }

  /**
   * Every PDF block has the detected type and level, a level exactly when it
   * is a heading (1 or 2), and no list information.
   */
  lemma PdfBlocksClassified(rawText: string, numpages: Option<nat>, filename: string, firstId: nat)
    ensures var blocks := PdfDocument(rawText, numpages, filename, firstId).blocks;
      forall k :: 0 <= k < |blocks| ==>
        && Classified(blocks[k], CountListItems(blocks[..k]))
        && (blocks[k].level.Some? <==> blocks[k].kind == Heading)
        && (blocks[k].level.Some? ==> blocks[k].level.value == 1 || blocks[k].level.value == 2)
  {
    var paragraphs := Paragraphs(rawText);
    var blocks := Segment(paragraphs, |paragraphs|, firstId, PdfBlock);
    PdfBlockClassified();
    SegmentMakesOnly(paragraphs, |paragraphs|, firstId, PdfBlock, Classified);
    forall k | 0 <= k < |blocks|
      ensures Classified(blocks[k], CountListItems(blocks[..k]))
    {
      HoldsAt(blocks, Classified, k);
    }
  }

  /**
   * The offsets count two characters per paragraph break, yet the full text
   * is the raw text: with leading whitespace in the raw text the first
   * block's offsets do not select its content from the full text.
   */
  lemma OffsetsNeedNotIndexFullText()
    ensures var doc := PdfDocument(" A", None, "document.pdf", 0);
      && |doc.blocks| == 1 && doc.blocks[0].content == "A"
      && doc.blocks[0].charStart == 0 && doc.blocks[0].charEnd == 1
      && doc.fullText[0..1] != doc.blocks[0].content
  {
    var s := " A";
    assert !SeparatorAt(BlankLinesOrFormFeed, s, 0);
    assert !SeparatorAt(BlankLinesOrFormFeed, s, 1);
    assert s[0..2] == s;
    assert SplitFrom(s, BlankLinesOrFormFeed, 0, 2) == [s];
    assert SplitFrom(s, BlankLinesOrFormFeed, 0, 1) == [s];
    assert Split(s, BlankLinesOrFormFeed) == [s];
    assert TrimStart(s) == "A";
    assert Trim(s) == "A";
    assert Paragraphs(s) == ["A"];
  }

  // ---------------------------------------------------------------------------
  // createBlockLookup
  // ---------------------------------------------------------------------------

  /**
   * `createBlockLookup`: `new Map(blocks.map(b => [b.id, b]))`. The keys are
   * the block identifiers and each maps to the last block holding it, so with
   * distinct identifiers each block's identifier maps to the block itself.
   */
  function CreateBlockLookup(blocks: seq<Block>): (m: map<string, Block>)
    ensures m.Keys == BlockIds(blocks)
  {
    LookupLast(blocks, |blocks|);
    LookupKeys(blocks);
    var index := LookupOf(blocks, |blocks|);
    map id | id in index :: blocks[index[id]]
  }

  /** Each identifier maps to the last block holding it. */
  lemma LookupIsLastBlock(blocks: seq<Block>)
    ensures forall id :: id in CreateBlockLookup(blocks) ==>
      exists k ::
        0 <= k < |blocks| && CreateBlockLookup(blocks)[id] == blocks[k] && blocks[k].id == id
        && forall j :: k < j < |blocks| ==> blocks[j].id != id
  {
    LookupLast(blocks, |blocks|);
    var index := LookupOf(blocks, |blocks|);
    forall id | id in CreateBlockLookup(blocks)
      ensures exists k ::
        0 <= k < |blocks| && CreateBlockLookup(blocks)[id] == blocks[k] && blocks[k].id == id
        && forall j :: k < j < |blocks| ==> blocks[j].id != id
    {
      var k := index[id];
      assert CreateBlockLookup(blocks)[id] == blocks[k];
    }
  }

  /** With distinct identifiers each block's identifier maps to the block itself. */
  lemma LookupDistinctBlocks(blocks: seq<Block>)
    requires forall i, j :: 0 <= i < j < |blocks| ==> blocks[i].id != blocks[j].id
    ensures forall k :: 0 <= k < |blocks| ==>
      blocks[k].id in CreateBlockLookup(blocks) && CreateBlockLookup(blocks)[blocks[k].id] == blocks[k]
  {
    LookupDistinct(blocks);
  }
}
