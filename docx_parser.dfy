/**
 * The Word-document segmenter (app/lib/docx-parser.ts): from the raw text the
 * extractor hands back to typed, offset-tracked blocks with fresh identifiers,
 * the whole-document and annotated texts, the block classifiers, and the
 * lookups over the block list.
 */
module DocxParser {
  import opened Wrappers
  import opened Text
  import opened Types
  import opened Segmentation

  // ---------------------------------------------------------------------------
  // Numbering prefixes
  // ---------------------------------------------------------------------------

  /** A dotted number `\d+(\.\d+)*` read at some position: where it ends and how many segments it has. */
  datatype Numbering = Numbering(end: nat, segments: nat)

  /**
   * The dotted number that starts at `i`: a digit run, then as long as a `.`
   * is followed by a digit, that `.` and the next digit run. Without a digit
   * at `i` it is empty (ends at `i`, no segments).
   */
  function NumberAt(s: string, i: nat): (n: Numbering)
    requires i <= |s|
    ensures i <= n.end <= |s|
    ensures (n.end == i) <==> (n.segments == 0)
    ensures n.end == i <==> DigitRun(s, i) == 0
    ensures n.end > i ==> IsDigit(s[n.end - 1])
    decreases |s| - i
  {
    var d := i + DigitRun(s, i);
    if d == i then Numbering(i, 0)
    else if d + 1 < |s| && s[d] == '.' && IsDigit(s[d + 1]) then
      var rest := NumberAt(s, d + 1);
      Numbering(rest.end, rest.segments + 1)
    else Numbering(d, 1)
  }

  /** The number of `.` characters of `s`. */
  function Dots(s: string): nat
  {
    if |s| == 0 then 0 else Dots(s[..|s| - 1]) + (if s[|s| - 1] == '.' then 1 else 0)
  }

  lemma {:induction false} DotsAppend(a: string, b: string)
    ensures Dots(a + b) == Dots(a) + Dots(b)
    decreases |b|
  {
    if |b| == 0 {
      assert a + b == a;
    } else {
      assert (a + b)[..|a + b| - 1] == a + b[..|b| - 1];
      DotsAppend(a, b[..|b| - 1]);
    }
  }

  lemma NoDots(s: string)
    requires forall k :: 0 <= k < |s| ==> s[k] != '.'
    ensures Dots(s) == 0
  {
    if |s| > 0 {
      NoDots(s[..|s| - 1]);
    }
  }

  /** The segments of a dotted number are what `split('.')` gives: one more than its dots. */
  lemma {:induction false} SegmentsAreDotsPlusOne(s: string, i: nat)
    requires i < |s| && IsDigit(s[i])
    ensures NumberAt(s, i).segments == Dots(s[i..NumberAt(s, i).end]) + 1
    decreases |s| - i
  {
    var d := i + DigitRun(s, i);
    var n := NumberAt(s, i);
    DigitsHaveNoDots(s, i, d);
    if d + 1 < |s| && s[d] == '.' && IsDigit(s[d + 1]) {
      var rest := NumberAt(s, d + 1);
      SegmentsAreDotsPlusOne(s, d + 1);
      assert n == Numbering(rest.end, rest.segments + 1);
      DotsAcross(s, i, d, rest.end);
    } else {
      assert n == Numbering(d, 1);
    }
  }

  lemma DigitsHaveNoDots(s: string, i: nat, d: nat)
    requires i <= d <= |s| && forall k :: i <= k < d ==> IsDigit(s[k])
    ensures Dots(s[i..d]) == 0
  {
    NoDots(s[i..d]);
  }

  lemma DotsAcross(s: string, i: nat, d: nat, e: nat)
    requires i <= d < e <= |s| && Dots(s[i..d]) == 0
    ensures Dots(s[i..e]) == Dots(s[d + 1..e]) + (if s[d] == '.' then 1 else 0)
  {
    assert s[i..e] == s[i..d] + [s[d]] + s[d + 1..e];
    DotsAfterDigits(s[i..d], s[d], s[d + 1..e]);
  }

  /** A dot-free stretch, one character and the rest: one more dot when that character is one. */
  lemma DotsAfterDigits(a: string, c: char, b: string)
    requires Dots(a) == 0
    ensures Dots(a + [c] + b) == Dots(b) + (if c == '.' then 1 else 0)
  {
    DotsAppend(a + [c], b);
    DotsAppend(a, [c]);
    assert [c][..0] == [];
  }

  /**
   * Where the numbering prefix `\d+(\.\d+)*\.?\s+` at the start of `s` ends,
   * if `s` opens with one. The match is forced: a shorter digit run or a
   * missing dot would leave a character the next part cannot take, and the
   * patterns that use the prefix want a letter right after the whitespace.
   */
  function NumberedPrefixEnd(s: string): (r: Option<nat>)
    ensures r.Some? ==> 0 < r.value <= |s| && IsDigit(s[0]) && IsWhitespace(s[r.value - 1])
    ensures r.Some? ==> r.value == |s| || !IsWhitespace(s[r.value])
  {
    var e := NumberAt(s, 0).end;
    if e == 0 then None
    else
      var d := if e < |s| && s[e] == '.' then e + 1 else e;
      var w := WhitespaceRunEnd(s, d);
      if w == d then None
      else
        assert s[d..w][w - d - 1] == s[w - 1];
        Some(w)
  }

  // ---------------------------------------------------------------------------
  // detectBlockType / detectHeadingLevel
  // ---------------------------------------------------------------------------

  /** `[A-Z][A-Z\s]{2,}$`: an upper-case letter, then at least two upper-case letters or spaces, to the end. */
  predicate CapsTitle(s: string)
  {
    |s| >= 3 && IsUpperAZ(s[0]) && forall k :: 1 <= k < |s| ==> IsUpperAZ(s[k]) || IsWhitespace(s[k])
  }

  /** `/^(\d+(\.\d+)*\.?\s+)?[A-Z][A-Z\s]{2,}$/`: an optionally numbered all-caps title. */
  predicate NumberedCapsTitle(text: string)
  {
    CapsTitle(text) || (NumberedPrefixEnd(text).Some? && CapsTitle(text[NumberedPrefixEnd(text).value..]))
  }

  /** `/^\d+(\.\d+)*\.?\s+[A-Z]/`: a numbering prefix followed by an upper-case letter. */
  predicate NumberedTitle(text: string)
  {
    NumberedPrefixEnd(text).Some? && NumberedPrefixEnd(text).value < |text| && IsUpperAZ(text[NumberedPrefixEnd(text).value])
  }

  /** `[IVX\d]` under the `i` flag. */
  predicate IsRomanOrDigit(c: char)
  {
    c == 'I' || c == 'V' || c == 'X' || c == 'i' || c == 'v' || c == 'x' || IsDigit(c)
  }

  /** `/^kw\s+[IVX\d]+/i`: the keyword, whitespace, then a roman numeral or digit. */
  predicate Marked(text: string, kw: string)
  {
    OpensWith(text, kw) && WhitespaceRunEnd(text, |kw|) < |text| && IsRomanOrDigit(text[WhitespaceRunEnd(text, |kw|)])
  }

  /** `/^(ARTICLE|SECTION|EXHIBIT|SCHEDULE|ANNEX)\s+[IVX\d]+/i`. */
  predicate KeywordHeading(text: string)
  {
    Marked(text, "ARTICLE") || Marked(text, "SECTION") || Marked(text, "EXHIBIT") || Marked(text, "SCHEDULE")
    || Marked(text, "ANNEX")
  }

  /** `detectBlockType`: the four heading tests in order, else a paragraph. */
  function DetectBlockType(text: string): (t: BlockType)
    ensures t == Heading || t == Paragraph
  {
    if NumberedCapsTitle(text) then Heading
    else if NumberedTitle(text) && |text| < 100 then Heading
    else if KeywordHeading(text) then Heading
    else if ShortAllCaps(text) then Heading
    else Paragraph
  }

  /** `detectHeadingLevel`: the segment count of a leading number (at most 6), else by keyword or case. */
  function DetectHeadingLevel(text: string): (level: int)
    ensures 1 <= level <= 6
  {
    var n := NumberAt(text, 0);
    if n.end > 0 then Min(n.segments, 6)
    else if OpensWith(text, "ARTICLE") then 1
    else if OpensWith(text, "SECTION") then 2
    else if IsAllCaps(text) then 1
    else 2
  }

  /** Any all-caps text of 4 to 79 characters is a heading, whatever else it looks like. */
  lemma ShortAllCapsIsHeading(text: string)
    requires IsAllCaps(text) && 3 < |text| < 80
    ensures DetectBlockType(text) == Heading
  {
  }

  /**
   * Text that holds a lower-case letter, does not open with a digit and opens
   * with none of the section keywords is a paragraph.
   */
  lemma ProseIsParagraph(text: string)
    requires exists k :: 0 <= k < |text| && IsLowerAZ(text[k])
    requires |text| == 0 || !IsDigit(text[0])
    requires !KeywordHeading(text)
    ensures DetectBlockType(text) == Paragraph
  {
    var k :| 0 <= k < |text| && IsLowerAZ(text[k]);
    AllCapsIffNoLower(text);
  }

  /** A leading number of `n` dot-separated parts gives heading level `n`, capped at 6. */
  lemma HeadingLevelOfNumber(text: string)
    requires |text| > 0 && IsDigit(text[0])
    ensures DetectHeadingLevel(text) == Min(Dots(text[..NumberAt(text, 0).end]) + 1, 6)
  {
    SegmentsAreDotsPlusOne(text, 0);
    assert text[0..NumberAt(text, 0).end] == text[..NumberAt(text, 0).end];
  }

  /**
   * Without a leading number the level comes from the keyword or the case:
   * ARTICLE gives 1, SECTION gives 2, and otherwise all-caps text gives 1 and
   * any other text 2.
   */
  lemma HeadingLevelOfKeyword(text: string)
    requires |text| == 0 || !IsDigit(text[0])
    ensures OpensWith(text, "ARTICLE") ==> DetectHeadingLevel(text) == 1
    ensures !OpensWith(text, "ARTICLE") && OpensWith(text, "SECTION") ==> DetectHeadingLevel(text) == 2
    ensures !OpensWith(text, "ARTICLE") && !OpensWith(text, "SECTION") ==>
      DetectHeadingLevel(text) == if IsAllCaps(text) then 1 else 2
  {
    assert DigitRun(text, 0) == 0;
  }

  // ---------------------------------------------------------------------------
  // List markers
  // ---------------------------------------------------------------------------

  /** What `/^(\s*)([•\-\*]|\d+[\.\)])\s+(.+)$/` captures: the indentation length and whether the marker is a number. */
  datatype ListMarker = ListMarker(indent: nat, numbered: bool)

  /** The end of a marker `[•\-\*]|\d+[\.\)]` that starts at `i`, if one does. */
  function MarkerEnd(s: string, i: nat): (r: Option<nat>)
    requires i <= |s|
    ensures r.Some? ==> i < r.value <= |s|
  {
    if i < |s| && (s[i] == '•' || s[i] == '-' || s[i] == '*') then Some(i + 1)
    else
      var d := DigitRun(s, i);
      if d > 0 && i + d < |s| && (s[i + d] == '.' || s[i + d] == ')') then Some(i + d + 1) else None
  }

  predicate NoLineBreak(s: string)
  {
    forall k :: 0 <= k < |s| ==> !IsLineTerminator(s[k])
  }

  /**
   * The line `Min(WhitespaceRunEnd(s, m), |s| - 1)`: where `(.+)$` starts
   * when the whitespace `\s+` from `m` takes as much as it can while leaving
   * at least one character.
   */
  function TailStart(s: string, m: nat): nat
    requires m < |s|
  {
    Min(WhitespaceRunEnd(s, m), |s| - 1)
  }

  /**
   * `/^(\s*)([•\-\*]|\d+[\.\)])\s+(.+)$/`: leading whitespace, a marker,
   * whitespace, and at least one more character, none of them a line break.
   * The leading whitespace and the digits of a numbered marker can only be
   * taken whole; the whitespace after the marker is settled by `ListTail`.
   */
  function ListMatch(s: string): (r: Option<ListMarker>)
    ensures r.Some? ==> r.value.indent < |s| && (r.value.numbered <==> IsDigit(s[r.value.indent]))
  {
    var lead := WhitespaceRunEnd(s, 0);
    match MarkerEnd(s, lead)
    case None => None
    case Some(m) =>
      if m + 1 < |s| && IsWhitespace(s[m]) && NoLineBreak(s[TailStart(s, m)..]) then
        Some(ListMarker(lead, IsDigit(s[lead])))
      else None
  }

  /**
   * `\s+(.+)$` matches from `m` for some split of whitespace and rest exactly
   * when it matches with the split at `TailStart`: a later split than the
   * whitespace allows is impossible and an earlier one only has more
   * characters that must not be line breaks.
   */
  lemma ListTail(s: string, m: nat)
    requires m < |s|
    ensures (exists k :: m < k < |s| && AllWhitespace(s[m..k]) && NoLineBreak(s[k..]))
        <==> (m + 1 < |s| && IsWhitespace(s[m]) && NoLineBreak(s[TailStart(s, m)..]))
  {
    var w := WhitespaceRunEnd(s, m);
    var t := TailStart(s, m);
    if exists k :: m < k < |s| && AllWhitespace(s[m..k]) && NoLineBreak(s[k..]) {
      var k :| m < k < |s| && AllWhitespace(s[m..k]) && NoLineBreak(s[k..]);
      assert IsWhitespace(s[m]) by { assert s[m..k][0] == s[m]; }
      forall j | 0 <= j < |s[t..]| ensures !IsLineTerminator(s[t..][j]) {
        assert s[t..][j] == s[k..][j + t - k];
      }
    }
    if m + 1 < |s| && IsWhitespace(s[m]) && NoLineBreak(s[t..]) {
      assert m < t;
      forall j | 0 <= j < |s[m..t]| ensures IsWhitespace(s[m..t][j]) {
        assert s[m..t][j] == s[m..w][j];
      }
    }
  }

  // ---------------------------------------------------------------------------
  // The segmentation loop of parseDocx
  // ---------------------------------------------------------------------------

  /**
   * The block made from a non-blank trimmed paragraph `t`: classified, with a
   * heading level for headings, then turned into a list item when `t` has a
   * list marker (keeping any heading level already set). `listsBefore` is the
   * number of list items already made.
   */
  function ParagraphBlock(t: string, id: string, offset: int, listsBefore: nat): Block
  {
    var kind := DetectBlockType(t);
    var level := if kind == Heading then Some(DetectHeadingLevel(t)) else None;
    match ListMatch(t)
    case None => Block(id, kind, t, offset, offset + |t|, level, None)
    case Some(m) =>
      Block(id, ListItem, t, offset, offset + |t|, level,
        Some(ListInfo(if m.numbered then Numbered else Bullet, m.indent / 2, listsBefore)))
  }

  /** `ParagraphBlock` keeps the identifier, the text and the offsets it is given. */
  lemma ParagraphBlockSpansText()
    ensures SpansText(ParagraphBlock)
  {
    forall t, id, offset, n ensures ParagraphBlock(t, id, offset, n).id == id && ParagraphBlock(t, id, offset, n).content == t
      && ParagraphBlock(t, id, offset, n).charStart == offset && ParagraphBlock(t, id, offset, n).charEnd == offset + |t|
    {
      ParagraphBlockFields(t, id, offset, n);
    }
  }

  /** The fields of a paragraph block that do not depend on its classification. */
  lemma ParagraphBlockFields(t: string, id: string, offset: int, listsBefore: nat)
    ensures var b := ParagraphBlock(t, id, offset, listsBefore);
      b.id == id && b.content == t && b.charStart == offset && b.charEnd == offset + |t|
  {
  }

  /** What the classification of a block says about its kind, level and list information. */
  predicate Classified(b: Block, listsBefore: nat)
  {
    && (b.kind == ListItem <==> ListMatch(b.content).Some?)
    && (b.kind != ListItem ==> b.kind == DetectBlockType(b.content) && b.listInfo.None?)
    && (b.level.Some? <==> DetectBlockType(b.content) == Heading)
    && (b.level.Some? ==> b.level.value == DetectHeadingLevel(b.content) && 1 <= b.level.value <= 6)
    && (b.listInfo.Some? <==> b.kind == ListItem)
    && (b.listInfo.Some? ==>
         && b.listInfo.value.index == listsBefore
         && b.listInfo.value.depth == ListMatch(b.content).value.indent / 2
         && (b.listInfo.value.kind == Numbered <==> ListMatch(b.content).value.numbered))
  }

  /** Every paragraph block is classified as `Classified` says. */
  lemma ParagraphBlockClassified()
    ensures MakesOnly(ParagraphBlock, Classified)
  {
    forall t, id, offset, n ensures Classified(ParagraphBlock(t, id, offset, n), n) {
    }
  }

  /** A trimmed, non-empty text has no indentation, so a list marker in it sits at position 0. */
  lemma TrimmedListDepth(t: string)
    requires IsTrimmed(t) && t != ""
    ensures ListMatch(t).Some? ==> ListMatch(t).value.indent == 0 && (ListMatch(t).value.numbered <==> IsDigit(t[0]))
  {
  }

  // ---------------------------------------------------------------------------
  // Annotated text and the parsed document
  // ---------------------------------------------------------------------------

  /** The marker of a block in the Word annotated text: headings open a new `###` line. */
  function DocxMarker(b: Block): string
  {
    (if b.kind == Heading then "\n### [BLOCK:" + b.id + "] " else "[BLOCK:" + b.id + "] ") + b.content + " [/BLOCK]"
  }

  function DocxMarkers(blocks: seq<Block>): (r: seq<string>)
    ensures |r| == |blocks|
    ensures forall k :: 0 <= k < |blocks| ==> r[k] == DocxMarker(blocks[k])
  {
    seq(|blocks|, k requires 0 <= k < |blocks| => DocxMarker(blocks[k]))
  }

  /** The Word `generateAnnotatedText`: the markers joined by blank lines. */
  function DocxAnnotatedText(blocks: seq<Block>): string
  {
    Join(DocxMarkers(blocks), "\n\n")
  }

  /**
   * A marker carries the block's identifier and ends with its content and
   * `[/BLOCK]`; it opens with a line break exactly for headings.
   */
  lemma DocxMarkerShape(b: Block)
    ensures EndsWith(DocxMarker(b), b.content + " [/BLOCK]")
    ensures DocxMarker(b)[0] == '\n' <==> b.kind == Heading
    ensures b.kind == Heading ==> StartsWith(DocxMarker(b), "\n### [BLOCK:" + b.id + "] ")
    ensures b.kind != Heading ==> StartsWith(DocxMarker(b), "[BLOCK:" + b.id + "] ")
  {
    var head := if b.kind == Heading then "\n### [BLOCK:" + b.id + "] " else "[BLOCK:" + b.id + "] ";
    var tail := b.content + " [/BLOCK]";
    assert DocxMarker(b) == head + tail;
    assert (head + tail)[|head|..] == tail;
    assert (head + tail)[..|head|] == head;
    assert (head + tail)[0] == head[0];
  }

  /** Appending a block appends a blank line and its marker: one segment per block, in order. */
  lemma DocxAnnotatedTextSnoc(blocks: seq<Block>, b: Block)
    requires |blocks| > 0
    ensures DocxAnnotatedText(blocks + [b]) == DocxAnnotatedText(blocks) + "\n\n" + DocxMarker(b)
  {
    assert DocxMarkers(blocks + [b]) == DocxMarkers(blocks) + [DocxMarker(b)];
    JoinSnoc(DocxMarkers(blocks), DocxMarker(b), "\n\n");
  }

  /** `html.includes('<table') || html.includes('<ul') || html.includes('<ol')`. */
  predicate HasTablesOrLists(html: string)
  {
    Contains(html, "<table") || Contains(html, "<ul") || Contains(html, "<ol")
  }

  /**
   * What `parseDocx` returns for the extracted raw text and HTML: the blocks
   * of the paragraphs between blank lines, their contents joined by blank
   * lines, the annotated text and the counts.
   */
  function DocxDocument(rawText: string, html: string, filename: string, firstId: nat): ParsedDocument
  {
    var paragraphs := Split(rawText, BlankLines);
    var blocks := Segment(paragraphs, |paragraphs|, firstId, ParagraphBlock);
    var fullText := JoinedText(blocks);
    ParsedDocument(filename, blocks, fullText, DocxAnnotatedText(blocks),
      Metadata(|Words(fullText)|, |blocks|, HasTablesOrLists(html), None))
  }

  /** The block the loop of `parseDocx` makes for the trimmed paragraph `trimmedPara`. */
  method NewParagraphBlock(trimmedPara: string, id: string, charOffset: int, listsBefore: nat) returns (block: Block)
    ensures block == ParagraphBlock(trimmedPara, id, charOffset, listsBefore)
  {
    var blockType := DetectBlockType(trimmedPara);
    var headingLevel := if blockType == Heading then Some(DetectHeadingLevel(trimmedPara)) else None;
    block := Block(id, blockType, trimmedPara, charOffset, charOffset + |trimmedPara|, headingLevel, None);
    var listMatch := ListMatch(trimmedPara);
    if listMatch.Some? {
      var kind := if listMatch.value.numbered then Numbered else Bullet;
      block := block.(kind := ListItem, listInfo := Some(ListInfo(kind, listMatch.value.indent / 2, listsBefore)));
    }
  }

  /**
   * The paragraph loop of `parseDocx`: one block per non-blank paragraph,
   * advancing the offset and the identifier counter.
   */
  method SegmentParagraphs(paragraphs: seq<string>, firstId: nat) returns (blocks: seq<Block>, nextId: nat)
    ensures blocks == Segment(paragraphs, |paragraphs|, firstId, ParagraphBlock)
    ensures nextId == firstId + |blocks|
  {
    blocks := [];
    var charOffset: int := 0;
    nextId := firstId;
    for i := 0 to |paragraphs|
      invariant blocks == Segment(paragraphs, i, firstId, ParagraphBlock)
      invariant charOffset == NextOffset(blocks)
      invariant nextId == firstId + |blocks|
    {
      var trimmedPara := Trim(paragraphs[i]);
      TrimEmpty(paragraphs[i]);
      if trimmedPara != "" {
        var block := NewParagraphBlock(trimmedPara, MakeId(nextId), charOffset, CountListItems(blocks));
        ParagraphBlockFields(trimmedPara, MakeId(nextId), charOffset, CountListItems(blocks));
        SegmentAppend(paragraphs, i, firstId, ParagraphBlock, blocks, trimmedPara, nextId, charOffset, block);
        blocks := blocks + [block];
        nextId := nextId + 1;
        charOffset := charOffset + |trimmedPara| + 2;
      } else {
        SegmentSkip(paragraphs, i, firstId, ParagraphBlock);
      }
    }
  }

  /**
   * `parseDocx` from the extracted text on; `firstId` is the identifier
   * counter's value on entry, `nextId` its value on return.
   */
  method ParseDocx(rawText: string, html: string, filename: string, firstId: nat)
    returns (doc: ParsedDocument, nextId: nat)
    ensures doc == DocxDocument(rawText, html, filename, firstId)
    ensures nextId == firstId + |doc.blocks|
  {
    var paragraphs := Split(rawText, BlankLines);
    var blocks;
    blocks, nextId := SegmentParagraphs(paragraphs, firstId);
    var fullText := Join(Contents(blocks), "\n\n");
    var annotatedText := DocxAnnotatedText(blocks);
    var hasTablesOrLists := Contains(html, "<table") || Contains(html, "<ul") || Contains(html, "<ol");
    doc := ParsedDocument(filename, blocks, fullText, annotatedText,
      Metadata(|Words(fullText)|, |blocks|, hasTablesOrLists, None));
  }

  /**
   * The document `parseDocx` returns: chained identifiers and offsets, one
   * block per non-blank paragraph holding it trimmed, every block's content
   * the slice of the full text between its offsets, the full text ending
   * where the last block ends, and `blockCount` the number of blocks.
   */
  lemma DocxDocumentWellFormed(rawText: string, html: string, filename: string, firstId: nat)
    ensures var doc := DocxDocument(rawText, html, filename, firstId);
      && Chained(doc.blocks, firstId)
      && Contents(doc.blocks) == Kept(Split(rawText, BlankLines), |Split(rawText, BlankLines)|)
      && doc.metadata.blockCount == |doc.blocks|
      && (|doc.blocks| > 0 ==> |doc.fullText| == doc.blocks[|doc.blocks| - 1].charEnd)
      && forall k :: 0 <= k < |doc.blocks| ==>
           0 <= doc.blocks[k].charStart <= doc.blocks[k].charEnd <= |doc.fullText|
           && doc.fullText[doc.blocks[k].charStart..doc.blocks[k].charEnd] == doc.blocks[k].content
  {
    var paras := Split(rawText, BlankLines);
    ParagraphBlockSpansText();
    SegmentChained(paras, |paras|, firstId, ParagraphBlock);
    SegmentContents(paras, |paras|, firstId, ParagraphBlock);
    FullTextSlices(Segment(paras, |paras|, firstId, ParagraphBlock), firstId);
  }

  /**
   * Every block of a parsed Word document is classified as `Classified` says,
   * its list index counting the list items before it; its content is trimmed
   * and non-empty.
   */
  lemma DocxBlocksClassified(rawText: string, html: string, filename: string, firstId: nat)
    ensures var blocks := DocxDocument(rawText, html, filename, firstId).blocks;
      forall k :: 0 <= k < |blocks| ==>
        && Classified(blocks[k], CountListItems(blocks[..k]))
        && IsTrimmed(blocks[k].content) && blocks[k].content != ""
  {
    var paras := Split(rawText, BlankLines);
    var blocks := Segment(paras, |paras|, firstId, ParagraphBlock);
    ParagraphBlockClassified();
    ParagraphBlockSpansText();
    SegmentMakesOnly(paras, |paras|, firstId, ParagraphBlock, Classified);
    SegmentContents(paras, |paras|, firstId, ParagraphBlock);
    KeptTrimmed(paras, |paras|);
    forall k | 0 <= k < |blocks|
      ensures Classified(blocks[k], CountListItems(blocks[..k]))
      ensures IsTrimmed(blocks[k].content) && blocks[k].content != ""
    {
      HoldsAt(blocks, Classified, k);
      assert blocks[k].content == Contents(blocks)[k];
    }
  }

  // ---------------------------------------------------------------------------
  // Lookups
  // ---------------------------------------------------------------------------

  /**
   * `createBlockLookup`: every identifier maps to the index of its last
   * block, so with distinct identifiers each block's identifier maps to its
   * own index.
   */
  method CreateBlockLookup(blocks: seq<Block>) returns (lookup: map<string, nat>)
    ensures lookup == LookupOf(blocks, |blocks|)
    ensures lookup.Keys == BlockIds(blocks)
    ensures forall id :: id in lookup ==>
      lookup[id] < |blocks| && blocks[lookup[id]].id == id && forall j :: lookup[id] < j < |blocks| ==> blocks[j].id != id
    ensures (forall i, j :: 0 <= i < j < |blocks| ==> blocks[i].id != blocks[j].id) ==>
      forall k :: 0 <= k < |blocks| ==> lookup[blocks[k].id] == k
  {
    lookup := map[];
    for index := 0 to |blocks|
      invariant lookup == LookupOf(blocks, index)
    {
      lookup := lookup[blocks[index].id := index];
    }
    LookupLast(blocks, |blocks|);
    LookupKeys(blocks);
    if forall i, j :: 0 <= i < j < |blocks| ==> blocks[i].id != blocks[j].id {
      LookupDistinct(blocks);
    }
  }

  /** `findBlockById`: the first block with identifier `id`. */
  function FindBlockById(blocks: seq<Block>, id: string): (r: Option<Block>)
    ensures r.Some? ==> r.value in blocks && r.value.id == id
    ensures r.None? <==> id !in BlockIds(blocks)
  {
    if |blocks| == 0 then None
    else if blocks[0].id == id then Some(blocks[0])
    else FindBlockById(blocks[1..], id)
  }

  /** The block found is the one at the first index holding `id`. */
  lemma FindBlockByIdFirst(blocks: seq<Block>, id: string)
    ensures FindBlockById(blocks, id) == if IndexOf(blocks, id).Some? then Some(blocks[IndexOf(blocks, id).value]) else None
  {
    FindBlockByIdFrom(blocks, id, 0);
    assert blocks[0..] == blocks;
  }

  lemma {:induction false} FindBlockByIdFrom(blocks: seq<Block>, id: string, from: nat)
    requires from <= |blocks|
    ensures FindBlockById(blocks[from..], id)
         == if IndexFrom(blocks, id, from).Some? then Some(blocks[IndexFrom(blocks, id, from).value]) else None
    decreases |blocks| - from
  {
    if from < |blocks| {
      assert blocks[from..][0] == blocks[from];
      if blocks[from].id != id {
        FindBlockByIdFrom(blocks, id, from + 1);
        assert blocks[from..][1..] == blocks[from + 1..];
      }
    }
  }

  /** `content.toLowerCase().includes(searchText.toLowerCase())`. */
  predicate MatchesText(b: Block, searchText: string)
  {
    Contains(ToLower(b.content), ToLower(searchText))
  }

  /** `findBlocksByText`: the blocks whose content contains the search text, ignoring (ASCII) case, in order. */
  function FindBlocksByText(blocks: seq<Block>, searchText: string): (r: seq<Block>)
    ensures |r| <= |blocks|
  {
    if |blocks| == 0 then []
    else (if MatchesText(blocks[0], searchText) then [blocks[0]] else []) + FindBlocksByText(blocks[1..], searchText)
  }

  lemma {:induction false} FindBlocksByTextMembers(blocks: seq<Block>, searchText: string)
    ensures forall b :: b in FindBlocksByText(blocks, searchText) <==> b in blocks && MatchesText(b, searchText)
  {
    if |blocks| > 0 {
      FindBlocksByTextMembers(blocks[1..], searchText);
      assert blocks == [blocks[0]] + blocks[1..];
    }
  }

  /** The empty search text is contained in everything: every block is found. */
  lemma {:induction false} EmptySearchFindsAll(blocks: seq<Block>)
    ensures FindBlocksByText(blocks, "") == blocks
  {
    if |blocks| > 0 {
      assert OccursAt(ToLower(blocks[0].content), ToLower(""), 0);
      EmptySearchFindsAll(blocks[1..]);
      assert blocks == [blocks[0]] + blocks[1..];
    }
  }

  /** Searching ignores case: a search text and its upper-cased form find the same blocks. */
  lemma {:induction false} SearchIgnoresCase(blocks: seq<Block>, searchText: string)
    ensures FindBlocksByText(blocks, ToUpper(searchText)) == FindBlocksByText(blocks, searchText)
  {
    assert ToLower(ToUpper(searchText)) == ToLower(searchText);
    if |blocks| > 0 {
      SearchIgnoresCase(blocks[1..], searchText);
    }
  }

  // ---------------------------------------------------------------------------
  // extractClauseMap
  // ---------------------------------------------------------------------------

  /** One clause-map entry: `{ id, title, level }`. */
  datatype ClauseEntry = ClauseEntry(id: string, title: string, level: int)

  function EntryOf(b: Block): ClauseEntry
  {
    ClauseEntry(b.id, b.content, LevelOr(b, 1))
  }

  /** `extractClauseMap`: an entry per heading block, in order, the level defaulting to 1. */
  function ExtractClauseMap(blocks: seq<Block>): (r: seq<ClauseEntry>)
    ensures |r| <= |blocks|
  {
    if |blocks| == 0 then []
    else (if blocks[0].kind == Heading then [EntryOf(blocks[0])] else []) + ExtractClauseMap(blocks[1..])
  }

  /** The clause map of two block lists one after the other is their clause maps one after the other. */
  lemma {:induction false} ClauseMapAppend(a: seq<Block>, b: seq<Block>)
    ensures ExtractClauseMap(a + b) == ExtractClauseMap(a) + ExtractClauseMap(b)
  {
    if |a| == 0 {
      assert a + b == b;
    } else {
      var h := if a[0].kind == Heading then [EntryOf(a[0])] else [];
      assert (a + b)[0] == a[0];
      assert (a + b)[1..] == a[1..] + b;
      assert ExtractClauseMap(a + b) == h + ExtractClauseMap(a[1..] + b);
      assert ExtractClauseMap(a) == h + ExtractClauseMap(a[1..]);
      ClauseMapAppend(a[1..], b);
      assert h + (ExtractClauseMap(a[1..]) + ExtractClauseMap(b)) == (h + ExtractClauseMap(a[1..])) + ExtractClauseMap(b);
    }
  }

  /** The number of heading blocks. */
  function CountHeadings(blocks: seq<Block>): nat
  {
    if |blocks| == 0 then 0 else (if blocks[0].kind == Heading then 1 else 0) + CountHeadings(blocks[1..])
  }

  /** Exactly the heading blocks have entries: one each, carrying the heading's identifier and content. */
  lemma {:induction false} ClauseMapEntries(blocks: seq<Block>)
    ensures |ExtractClauseMap(blocks)| == CountHeadings(blocks)
    ensures forall e :: e in ExtractClauseMap(blocks) <==> exists b :: b in blocks && b.kind == Heading && e == EntryOf(b)
  {
    if |blocks| > 0 {
      ClauseMapEntries(blocks[1..]);
      assert blocks == [blocks[0]] + blocks[1..];
      forall e | e in ExtractClauseMap(blocks)
        ensures exists b :: b in blocks && b.kind == Heading && e == EntryOf(b)
      {
        if e !in ExtractClauseMap(blocks[1..]) {
          assert blocks[0] in blocks && blocks[0].kind == Heading && e == EntryOf(blocks[0]);
        }
      }
      forall b | b in blocks && b.kind == Heading ensures EntryOf(b) in ExtractClauseMap(blocks) {
        if b != blocks[0] { assert b in blocks[1..]; }
      }
    }
  }

  /** Every heading a segmenter produces has a level from 1 to 6, so every clause-map entry of its document does. */
  lemma {:induction false} ClauseMapLevels(blocks: seq<Block>)
    requires forall k :: 0 <= k < |blocks| ==> blocks[k].kind == Heading ==> blocks[k].level.Some? && 1 <= blocks[k].level.value <= 6
    ensures forall e :: e in ExtractClauseMap(blocks) ==> 1 <= e.level <= 6
  {
    if |blocks| > 0 {
      ClauseMapLevels(blocks[1..]);
    }
  }

  /** The clause map of a parsed Word document has levels from 1 to 6. */
  lemma DocxClauseMapLevels(rawText: string, html: string, filename: string, firstId: nat)
    ensures forall e :: e in ExtractClauseMap(DocxDocument(rawText, html, filename, firstId).blocks) ==> 1 <= e.level <= 6
  {
    var blocks := DocxDocument(rawText, html, filename, firstId).blocks;
    DocxBlocksClassified(rawText, html, filename, firstId);
    forall k | 0 <= k < |blocks| && blocks[k].kind == Heading
      ensures blocks[k].level.Some? && 1 <= blocks[k].level.value <= 6
    {
      assert Classified(blocks[k], CountListItems(blocks[..k]));
    }
    ClauseMapLevels(blocks);
  }

  /**
   * "1. DEFINITIONS" classifies as a heading of level 1, but its `1.` list
   * marker then turns the block into a numbered list item that keeps the
   * heading level, so it is not part of the clause map.
   */
  lemma NumberedCapsHeadingBecomesListItem(id: string)
    ensures ParagraphBlock("1. DEFINITIONS", id, 0, 0)
         == Block(id, ListItem, "1. DEFINITIONS", 0, 14, Some(1), Some(ListInfo(Numbered, 0, 0)))
    ensures ExtractClauseMap([ParagraphBlock("1. DEFINITIONS", id, 0, 0)]) == []
  {
    NumberedCapsIsHeading();
    NumberedCapsIsListed();
  }

  lemma NumberedCapsIsHeading()
    ensures DetectBlockType("1. DEFINITIONS") == Heading
    ensures DetectHeadingLevel("1. DEFINITIONS") == 1
  {
    var t := "1. DEFINITIONS";
    NumberedCapsPrefix();
    assert CapsTitle(t[3..]);
  }

  lemma NumberedCapsPrefix()
    ensures NumberAt("1. DEFINITIONS", 0) == Numbering(1, 1)
    ensures NumberedPrefixEnd("1. DEFINITIONS") == Some(3)
  {
    var t := "1. DEFINITIONS";
    assert DigitRun(t, 0) == 1 by { assert DigitRun(t, 1) == 0; }
    assert WhitespaceRunEnd(t, 2) == 3 by { assert WhitespaceRunEnd(t, 3) == 3; }
  }

  lemma NumberedCapsIsListed()
    ensures ListMatch("1. DEFINITIONS") == Some(ListMarker(0, true))
  {
    var t := "1. DEFINITIONS";
    assert DigitRun(t, 0) == 1 by { assert DigitRun(t, 1) == 0; }
    assert WhitespaceRunEnd(t, 0) == 0;
    assert MarkerEnd(t, 0) == Some(2);
    assert WhitespaceRunEnd(t, 2) == 3 by { assert WhitespaceRunEnd(t, 3) == 3; }
    assert NoLineBreak(t[3..]);
  }
}
