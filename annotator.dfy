/**
 * Block markers and lookups over a block sequence (app/lib/document-annotator.ts):
 * the annotated text handed to the analysis step, its numbered variant,
 * quote extraction, issue reference validation, the block-to-issue index,
 * the nearest parent heading and section slicing.
 */
module Annotator {
  import opened Wrappers
  import opened Text
  import opened Types

  // ---------------------------------------------------------------------------
  // Annotated text
  // ---------------------------------------------------------------------------

  /** `[H{level||1}]` for a heading, nothing for any other block. */
  function TypeMarker(b: Block): string
  {
    if b.kind == Heading then "[H" + IntToString(LevelOr(b, 1)) + "]" else ""
  }

  /** `[BLOCK:id]{typeMarker} content [/BLOCK]`. */
  function BlockMarker(b: Block): string
  {
    "[BLOCK:" + b.id + "]" + TypeMarker(b) + " " + b.content + " [/BLOCK]"
  }

  function Markers(blocks: seq<Block>): (r: seq<string>)
    ensures |r| == |blocks|
    ensures forall k :: 0 <= k < |blocks| ==> r[k] == BlockMarker(blocks[k])
  {
    seq(|blocks|, k requires 0 <= k < |blocks| => BlockMarker(blocks[k]))
  }

  /** `generateAnnotatedText`: the block markers joined by blank lines. */
  function AnnotatedText(blocks: seq<Block>): string
  {
    Join(Markers(blocks), "\n\n")
  }

  /**
   * A marker opens with the block's ID in brackets and closes with its content
   * and `[/BLOCK]`; the character after the opening bracket pair is `[` (the
   * start of `[Hn]`) exactly for headings, and a space otherwise.
   */
  lemma MarkerShape(b: Block)
    ensures StartsWith(BlockMarker(b), "[BLOCK:" + b.id + "]")
    ensures EndsWith(BlockMarker(b), " " + b.content + " [/BLOCK]")
    ensures var n := |"[BLOCK:" + b.id + "]"|;
      n < |BlockMarker(b)| && (BlockMarker(b)[n] == '[' <==> b.kind == Heading)
  {
    var open := "[BLOCK:" + b.id + "]";
    var close := " " + b.content + " [/BLOCK]";
    assert BlockMarker(b) == open + TypeMarker(b) + close;
    if b.kind == Heading {
      assert (open + TypeMarker(b) + close)[|open|] == TypeMarker(b)[0] == '[';
    } else {
      assert TypeMarker(b) == "";
      assert (open + close)[|open|] == close[0] == ' ';
    }
  }

  /** Appending a block appends a blank line and its marker: one segment per block, in order. */
  lemma AnnotatedTextSnoc(blocks: seq<Block>, b: Block)
    requires |blocks| > 0
    ensures AnnotatedText(blocks + [b]) == AnnotatedText(blocks) + "\n\n" + BlockMarker(b)
  {
    assert Markers(blocks + [b]) == Markers(blocks) + [BlockMarker(b)];
    JoinSnoc(Markers(blocks), BlockMarker(b), "\n\n");
  }

  // ---------------------------------------------------------------------------
  // Readable annotated text
  // ---------------------------------------------------------------------------

  /** A heading with `level === 1` opens a section; any other heading opens a subsection. */
  predicate IsSection(b: Block) { b.kind == Heading && b.level == Some(1) }
  predicate IsSubsection(b: Block) { b.kind == Heading && b.level != Some(1) }

  function CountSections(s: seq<Block>): nat
  {
    if |s| == 0 then 0 else CountSections(s[..|s| - 1]) + (if IsSection(s[|s| - 1]) then 1 else 0)
  }

  function CountSubsections(s: seq<Block>): nat
  {
    if |s| == 0 then 0 else CountSubsections(s[..|s| - 1]) + (if IsSubsection(s[|s| - 1]) then 1 else 0)
  }

  /** The position just after the last section heading of `s`, or 0 when there is none. */
  function SectionStart(s: seq<Block>): (k: nat)
    ensures k <= |s|
    ensures k > 0 ==> IsSection(s[k - 1])
    ensures forall j :: k <= j < |s| ==> !IsSection(s[j])
  {
    if |s| == 0 then 0
    else if IsSection(s[|s| - 1]) then |s|
    else SectionStart(s[..|s| - 1])
  }

  /** The subsection counter: subsection headings since the last section heading. */
  function SubCount(s: seq<Block>): nat
  {
    CountSubsections(s[SectionStart(s)..])
  }

  /** Both counters after one more block: the update the source's `map` callback makes. */
  lemma CountersSnoc(s: seq<Block>, b: Block)
    ensures CountSections(s + [b]) == CountSections(s) + (if IsSection(b) then 1 else 0)
    ensures SubCount(s + [b]) == if IsSection(b) then 0 else SubCount(s) + (if IsSubsection(b) then 1 else 0)
  {
    var t := s + [b];
    assert t[..|t| - 1] == s;
    if !IsSection(b) {
      var k := SectionStart(s);
      assert SectionStart(t) == k;
      assert t[k..] == s[k..] + [b];
      assert (s[k..] + [b])[..|s[k..]|] == s[k..];
    }
  }

  function SectionPrefix(b: Block, section: nat, sub: nat): string
  {
    if IsSection(b) then "\n--- SECTION " + NatToString(section) + " ---\n"
    else if IsSubsection(b) then "\n-- " + NatToString(section) + "." + NatToString(sub) + " --\n"
    else ""
  }

  /** The segment of block `k`, numbered by the headings up to and including it. */
  function ReadablePart(blocks: seq<Block>, k: nat): string
    requires k < |blocks|
  {
    var upTo := blocks[..k + 1];
    SectionPrefix(blocks[k], CountSections(upTo), SubCount(upTo))
      + "[BLOCK:" + blocks[k].id + "] " + blocks[k].content + " [/BLOCK]"
  }

  function ReadableParts(blocks: seq<Block>): (r: seq<string>)
    ensures |r| == |blocks|
  {
    seq(|blocks|, k requires 0 <= k < |blocks| => ReadablePart(blocks, k))
  }

  function NextSection(b: Block, section: nat): nat
  {
    if IsSection(b) then section + 1 else section
  }

  function NextSub(b: Block, sub: nat): nat
  {
    if IsSection(b) then 0 else if IsSubsection(b) then sub + 1 else sub
  }

  /** Block `i`'s segment, from the counters as they stood before it. */
  lemma ReadableStep(blocks: seq<Block>, i: nat, section: nat, sub: nat)
    requires i < |blocks|
    requires section == CountSections(blocks[..i]) && sub == SubCount(blocks[..i])
    ensures CountSections(blocks[..i + 1]) == NextSection(blocks[i], section)
    ensures SubCount(blocks[..i + 1]) == NextSub(blocks[i], sub)
    ensures ReadablePart(blocks, i)
         == SectionPrefix(blocks[i], NextSection(blocks[i], section), NextSub(blocks[i], sub))
          + "[BLOCK:" + blocks[i].id + "] " + blocks[i].content + " [/BLOCK]"
  {
    CountersSnoc(blocks[..i], blocks[i]);
    assert blocks[..i + 1] == blocks[..i] + [blocks[i]];
  }

  /** The body of the `map` callback: the counter updates and the heading's prefix. */
  method NumberBlock(block: Block, sectionCount: nat, subsectionCount: nat) returns (prefix: string, section: nat, sub: nat)
    ensures section == NextSection(block, sectionCount) && sub == NextSub(block, subsectionCount)
    ensures prefix == SectionPrefix(block, section, sub)
  {
    prefix := "";
    section, sub := sectionCount, subsectionCount;
    if block.kind == Heading {
      if block.level == Some(1) {
        section := section + 1;
        sub := 0;
        prefix := "\n--- SECTION " + NatToString(section) + " ---\n";
      } else {
        sub := sub + 1;
        prefix := "\n-- " + NatToString(section) + "." + NatToString(sub) + " --\n";
      }
    }
  }

  /**
   * `generateReadableAnnotatedText`: the counters are the number of section
   * headings so far and the number of subsection headings since the last one.
   */
  method ReadableAnnotatedText(blocks: seq<Block>) returns (text: string)
    ensures text == Join(ReadableParts(blocks), "\n\n")
  {
    var sectionCount: nat := 0;
    var subsectionCount: nat := 0;
    var parts: seq<string> := [];
    for i := 0 to |blocks|
      invariant sectionCount == CountSections(blocks[..i])
      invariant subsectionCount == SubCount(blocks[..i])
      invariant parts == ReadableParts(blocks)[..i]
    {
      var block := blocks[i];
      ReadableStep(blocks, i, sectionCount, subsectionCount);
      var prefix;
      prefix, sectionCount, subsectionCount := NumberBlock(block, sectionCount, subsectionCount);
      SliceSnoc(ReadableParts(blocks), 0, i);
      parts := parts + [prefix + "[BLOCK:" + block.id + "] " + block.content + " [/BLOCK]"];
    }
    assert ReadableParts(blocks)[..|blocks|] == ReadableParts(blocks);
    text := Join(parts, "\n\n");
  }

  /** Section numbers strictly increase: two section headings never share a number. */
  lemma {:induction false} SectionNumbersIncrease(blocks: seq<Block>, i: nat, j: nat)
    requires i < j < |blocks| && IsSection(blocks[j])
    ensures CountSections(blocks[..i + 1]) < CountSections(blocks[..j + 1])
    decreases j - i
  {
    assert blocks[..j + 1][..j] == blocks[..j];
    if i + 1 < j {
      CountSectionsMonotone(blocks, i + 1, j);
    }
  }

  lemma {:induction false} CountSectionsMonotone(blocks: seq<Block>, a: nat, b: nat)
    requires a <= b <= |blocks|
    ensures CountSections(blocks[..a]) <= CountSections(blocks[..b])
    decreases b - a
  {
    if a < b {
      assert blocks[..b][..b - 1] == blocks[..b - 1];
      CountSectionsMonotone(blocks, a, b - 1);
    }
  }

  // ---------------------------------------------------------------------------
  // Quotes
  // ---------------------------------------------------------------------------

  const DefaultQuoteLength := 200

  /** `blocks.filter(b => blockIds.includes(b.id))`. */
  function Relevant(blocks: seq<Block>, blockIds: seq<string>): (r: seq<Block>)
    ensures forall b :: b in r <==> b in blocks && b.id in blockIds
  {
    if |blocks| == 0 then []
    else (if blocks[0].id in blockIds then [blocks[0]] else []) + Relevant(blocks[1..], blockIds)
  }

  /**
   * `extractQuoteFromBlocks`: the contents of the referenced blocks in
   * document order joined by spaces, cut to `maxLength` with a trailing `...`.
   */
  function ExtractQuote(blocks: seq<Block>, blockIds: seq<string>, maxLength: int): (r: string)
    ensures maxLength >= 3 ==> |r| <= maxLength
    ensures var full := Join(Contents(Relevant(blocks, blockIds)), " ");
      (|full| <= maxLength ==> r == full) && (|full| > maxLength ==> EndsWith(r, "...") && StartsWith(full, r[..|r| - 3]))
    ensures var full := Join(Contents(Relevant(blocks, blockIds)), " ");
      |full| > maxLength >= 3 ==> |r| == maxLength
  {
    Truncate(Join(Contents(Relevant(blocks, blockIds)), " "), maxLength)
  }

  lemma {:induction false} RelevantSameIds(blocks: seq<Block>, a: seq<string>, b: seq<string>)
    requires forall id :: id in a <==> id in b
    ensures Relevant(blocks, a) == Relevant(blocks, b)
  {
    if |blocks| > 0 {
      RelevantSameIds(blocks[1..], a, b);
    }
  }

  /** Only which IDs are asked for matters, not their order or repetition: the quote follows the document. */
  lemma QuoteIgnoresIdOrder(blocks: seq<Block>, a: seq<string>, b: seq<string>, maxLength: int)
    requires forall id :: id in a <==> id in b
    ensures ExtractQuote(blocks, a, maxLength) == ExtractQuote(blocks, b, maxLength)
  {
    RelevantSameIds(blocks, a, b);
  }

  // ---------------------------------------------------------------------------
  // Reference validation
  // ---------------------------------------------------------------------------

  function InvalidRefMessage(issue: Issue, blockId: string): string
  {
    "Issue \"" + issue.title + "\" references invalid block: " + blockId
  }

  /** The messages for the references `refs` of `issue` that are not in `ids`, in order. */
  function BadRefs(issue: Issue, refs: seq<string>, ids: set<string>): (r: seq<string>)
    ensures |r| == 0 <==> forall j :: 0 <= j < |refs| ==> refs[j] in ids
  {
    if |refs| == 0 then []
    else
      var last := refs[|refs| - 1];
      BadRefs(issue, refs[..|refs| - 1], ids) + (if last in ids then [] else [InvalidRefMessage(issue, last)])
  }

  function InvalidRefs(issues: seq<Issue>, ids: set<string>): seq<string>
  {
    if |issues| == 0 then []
    else InvalidRefs(issues[..|issues| - 1], ids) + BadRefs(issues[|issues| - 1], issues[|issues| - 1].sourceBlockIds, ids)
  }

  /** No message at all exactly when every reference of every issue names a block. */
  lemma {:induction false} InvalidRefsEmpty(issues: seq<Issue>, ids: set<string>)
    ensures |InvalidRefs(issues, ids)| == 0 <==>
      forall i, j :: 0 <= i < |issues| && 0 <= j < |issues[i].sourceBlockIds| ==> issues[i].sourceBlockIds[j] in ids
  {
    if |issues| > 0 {
      var init := issues[..|issues| - 1];
      InvalidRefsEmpty(init, ids);
      assert forall i :: 0 <= i < |init| ==> init[i] == issues[i];
    }
  }

  /** The positions of the references in `refs` that name no block. */
  ghost function BadIndices(refs: seq<string>, ids: set<string>): set<nat>
  {
    set j: nat | j < |refs| && refs[j] !in ids
  }

  /** The (issue, reference) positions of every reference, over all issues, that names no block. */
  ghost function BadPairs(issues: seq<Issue>, ids: set<string>): set<(nat, nat)>
  {
    set i: nat, j: nat | i < |issues| && j < |issues[i].sourceBlockIds| && issues[i].sourceBlockIds[j] !in ids :: (i, j)
  }

  lemma {:induction false} BadRefsCount(issue: Issue, refs: seq<string>, ids: set<string>)
    ensures |BadRefs(issue, refs, ids)| == |BadIndices(refs, ids)|
    decreases |refs|
  {
    if |refs| > 0 {
      var n := |refs| - 1;
      var init := refs[..n];
      BadRefsCount(issue, init, ids);
      if refs[n] in ids {
        assert BadIndices(refs, ids) == BadIndices(init, ids);
      } else {
        assert BadIndices(refs, ids) == BadIndices(init, ids) + {n};
        assert n !in BadIndices(init, ids);
      }
    }
  }

  /** The positions `(i, j)` for `j` in `s`. */
  ghost function Tagged(i: nat, s: set<nat>): set<(nat, nat)>
  {
    set j | j in s :: (i, j)
  }

  /** Pairing every position of `s` with `i` keeps the number of elements. */
  lemma {:induction false} TaggedCount(i: nat, s: set<nat>)
    ensures |Tagged(i, s)| == |s|
    decreases |s|
  {
    if s != {} {
      var x :| x in s;
      TaggedCount(i, s - {x});
      assert Tagged(i, s) == Tagged(i, s - {x}) + {(i, x)};
      assert (i, x) !in Tagged(i, s - {x});
    }
  }

  /** The bad positions of all issues are those of the earlier issues and those of the last one. */
  lemma BadPairsSnoc(issues: seq<Issue>, ids: set<string>)
    requires |issues| > 0
    ensures var n := |issues| - 1;
      BadPairs(issues, ids) == BadPairs(issues[..n], ids) + Tagged(n, BadIndices(issues[n].sourceBlockIds, ids))
    ensures var n := |issues| - 1;
      BadPairs(issues[..n], ids) !! Tagged(n, BadIndices(issues[n].sourceBlockIds, ids))
  {
    var n := |issues| - 1;
    var init := issues[..n];
    var tagged := Tagged(n, BadIndices(issues[n].sourceBlockIds, ids));
    forall p | p in BadPairs(issues, ids)
      ensures p in BadPairs(init, ids) + tagged
    {
      if p.0 < n {
        assert init[p.0] == issues[p.0];
      } else {
        assert p.1 in BadIndices(issues[n].sourceBlockIds, ids);
      }
    }
    forall p | p in BadPairs(init, ids)
      ensures p in BadPairs(issues, ids)
    {
      assert init[p.0] == issues[p.0];
    }
    forall p | p in tagged
      ensures p in BadPairs(issues, ids)
    {
    }
  }

  /** `validateIssueBlockReferences` reports one message for every bad reference of every issue. */
  lemma {:induction false} InvalidRefsCount(issues: seq<Issue>, ids: set<string>)
    ensures |InvalidRefs(issues, ids)| == |BadPairs(issues, ids)|
    decreases |issues|
  {
    if |issues| > 0 {
      var n := |issues| - 1;
      InvalidRefsCount(issues[..n], ids);
      BadRefsCount(issues[n], issues[n].sourceBlockIds, ids);
      TaggedCount(n, BadIndices(issues[n].sourceBlockIds, ids));
      BadPairsSnoc(issues, ids);
    }
  }

  /**
   * Every message names an issue and one of its references that is no block,
   * and every such reference has its message.
   */
  lemma {:induction false} InvalidRefsMessages(issues: seq<Issue>, ids: set<string>)
    ensures forall m :: m in InvalidRefs(issues, ids) <==>
      exists i, j :: 0 <= i < |issues| && 0 <= j < |issues[i].sourceBlockIds| &&
        issues[i].sourceBlockIds[j] !in ids && m == InvalidRefMessage(issues[i], issues[i].sourceBlockIds[j])
    decreases |issues|
  {
    if |issues| > 0 {
      var n := |issues| - 1;
      var init := issues[..n];
      InvalidRefsMessages(init, ids);
      BadRefsMessages(issues[n], issues[n].sourceBlockIds, ids);
      assert forall i :: 0 <= i < n ==> init[i] == issues[i];
    }
  }

  lemma {:induction false} BadRefsMessages(issue: Issue, refs: seq<string>, ids: set<string>)
    ensures forall m :: m in BadRefs(issue, refs, ids) <==>
      exists j :: 0 <= j < |refs| && refs[j] !in ids && m == InvalidRefMessage(issue, refs[j])
    decreases |refs|
  {
    if |refs| > 0 {
      var n := |refs| - 1;
      BadRefsMessages(issue, refs[..n], ids);
      assert forall j :: 0 <= j < n ==> refs[..n][j] == refs[j];
    }
  }

  datatype Validation = Validation(valid: bool, invalidRefs: seq<string>)

  /** `validateIssueBlockReferences`. */
  method ValidateIssueBlockReferences(issues: seq<Issue>, blocks: seq<Block>) returns (r: Validation)
    ensures r.invalidRefs == InvalidRefs(issues, BlockIds(blocks))
    ensures r.valid <==> forall i, j :: 0 <= i < |issues| && 0 <= j < |issues[i].sourceBlockIds| ==>
      issues[i].sourceBlockIds[j] in BlockIds(blocks)
    ensures |r.invalidRefs| == |BadPairs(issues, BlockIds(blocks))|
    ensures forall m :: m in r.invalidRefs <==>
      exists i, j :: 0 <= i < |issues| && 0 <= j < |issues[i].sourceBlockIds| &&
        issues[i].sourceBlockIds[j] !in BlockIds(blocks) && m == InvalidRefMessage(issues[i], issues[i].sourceBlockIds[j])
  {
    var blockIds := BlockIds(blocks);
    var invalid: seq<string> := [];
    for i := 0 to |issues|
      invariant invalid == InvalidRefs(issues[..i], blockIds)
    {
      var issue := issues[i];
      var refs := issue.sourceBlockIds;
      ghost var before := invalid;
      for j := 0 to |refs|
        invariant invalid == before + BadRefs(issue, refs[..j], blockIds)
      {
        assert refs[..j + 1][..j] == refs[..j];
        if refs[j] !in blockIds {
          invalid := invalid + [InvalidRefMessage(issue, refs[j])];
        }
      }
      assert refs[..|refs|] == refs;
      assert issues[..i + 1][..i] == issues[..i];
    }
    assert issues[..|issues|] == issues;
    InvalidRefsEmpty(issues, blockIds);
    InvalidRefsCount(issues, blockIds);
    InvalidRefsMessages(issues, blockIds);
    r := Validation(|invalid| == 0, invalid);
  }

  // ---------------------------------------------------------------------------
  // Block-to-issue index
  // ---------------------------------------------------------------------------

  /** `issue` once for each entry of `refs` equal to `id`. */
  function Occurrences(issue: Issue, refs: seq<string>, id: string): seq<Issue>
  {
    if |refs| == 0 then []
    else Occurrences(issue, refs[..|refs| - 1], id) + (if refs[|refs| - 1] == id then [issue] else [])
  }

  /** The issues listed under `id`, in issue order, once per reference. */
  function IssuesFor(issues: seq<Issue>, id: string): seq<Issue>
  {
    if |issues| == 0 then []
    else IssuesFor(issues[..|issues| - 1], id) + Occurrences(issues[|issues| - 1], issues[|issues| - 1].sourceBlockIds, id)
  }

  lemma {:induction false} OccurrencesFacts(issue: Issue, refs: seq<string>, id: string)
    ensures |Occurrences(issue, refs, id)| > 0 <==> id in refs
    ensures forall x :: x in Occurrences(issue, refs, id) ==> x == issue
  {
    if |refs| > 0 {
      var init := refs[..|refs| - 1];
      OccurrencesFacts(issue, init, id);
      assert refs == init + [refs[|refs| - 1]];
    }
  }

  /**
   * A block ID has issues listed under it exactly when some issue references
   * it, and every issue listed under it is one of the input issues that
   * references it.
   */
  lemma {:induction false} IssuesForFacts(issues: seq<Issue>, id: string)
    ensures |IssuesFor(issues, id)| > 0 <==> exists i :: 0 <= i < |issues| && id in issues[i].sourceBlockIds
    ensures forall x :: x in IssuesFor(issues, id) ==> x in issues && id in x.sourceBlockIds
  {
    if |issues| > 0 {
      var init := issues[..|issues| - 1];
      var last := issues[|issues| - 1];
      IssuesForFacts(init, id);
      OccurrencesFacts(last, last.sourceBlockIds, id);
      assert issues == init + [last];
      if exists i :: 0 <= i < |issues| && id in issues[i].sourceBlockIds {
        var i :| 0 <= i < |issues| && id in issues[i].sourceBlockIds;
        if i < |init| { assert init[i] == issues[i]; }
      }
      if exists i :: 0 <= i < |init| && id in init[i].sourceBlockIds {
        var i :| 0 <= i < |init| && id in init[i].sourceBlockIds;
        assert issues[i] == init[i];
      }
    }
  }

  /** `m` lists under each ID the issues of `done` referencing it, and nothing else. */
  ghost predicate Indexed(m: map<string, seq<Issue>>, done: seq<Issue>)
  {
    forall id :: (id in m <==> |IssuesFor(done, id)| > 0) && (id in m ==> m[id] == IssuesFor(done, id))
  }

  /** As `Indexed`, with the references `refs` of `issue` added as well. */
  ghost predicate IndexedPart(m: map<string, seq<Issue>>, done: seq<Issue>, issue: Issue, refs: seq<string>)
  {
    forall id ::
      && (id in m <==> |IssuesFor(done, id) + Occurrences(issue, refs, id)| > 0)
      && (id in m ==> m[id] == IssuesFor(done, id) + Occurrences(issue, refs, id))
  }

  lemma StartIssue(m: map<string, seq<Issue>>, done: seq<Issue>, issue: Issue)
    requires Indexed(m, done)
    ensures IndexedPart(m, done, issue, [])
  {
    forall id ensures IssuesFor(done, id) + Occurrences(issue, [], id) == IssuesFor(done, id) {
      assert Occurrences(issue, [], id) == [];
    }
  }

  lemma AddReference(m: map<string, seq<Issue>>, done: seq<Issue>, issue: Issue, refs: seq<string>, j: nat)
    requires j < |refs| && IndexedPart(m, done, issue, refs[..j])
    ensures IndexedPart(m[refs[j] := (if refs[j] in m then m[refs[j]] else []) + [issue]], done, issue, refs[..j + 1])
  {
    var t := refs[..j + 1];
    assert t[..|t| - 1] == refs[..j];
  }

  lemma FinishIssue(m: map<string, seq<Issue>>, done: seq<Issue>, issue: Issue)
    requires IndexedPart(m, done, issue, issue.sourceBlockIds)
    ensures Indexed(m, done + [issue])
  {
    var t := done + [issue];
    assert t[..|t| - 1] == done;
  }

  /** The inner loop of `buildBlockToIssueMap`: list `issue` under each ID it references. */
  method AddIssue(m0: map<string, seq<Issue>>, ghost done: seq<Issue>, issue: Issue) returns (m: map<string, seq<Issue>>)
    requires Indexed(m0, done)
    ensures Indexed(m, done + [issue])
  {
    m := m0;
    var refs := issue.sourceBlockIds;
    StartIssue(m, done, issue);
    for j := 0 to |refs|
      invariant IndexedPart(m, done, issue, refs[..j])
    {
      var blockId := refs[j];
      var existing := if blockId in m then m[blockId] else [];
      AddReference(m, done, issue, refs, j);
      m := m[blockId := existing + [issue]];
    }
    assert refs[..|refs|] == refs;
    FinishIssue(m, done, issue);
  }

  /** `buildBlockToIssueMap`: the map holds exactly the referenced IDs, each with its issues. */
  method BuildBlockToIssueMap(issues: seq<Issue>) returns (m: map<string, seq<Issue>>)
    ensures forall id :: id in m <==> |IssuesFor(issues, id)| > 0
    ensures forall id :: id in m ==> m[id] == IssuesFor(issues, id)
  {
    m := map[];
    for i := 0 to |issues|
      invariant Indexed(m, issues[..i])
    {
      m := AddIssue(m, issues[..i], issues[i]);
      assert issues[..i + 1] == issues[..i] + [issues[i]];
    }
    assert issues[..|issues|] == issues;
  }

  // ---------------------------------------------------------------------------
  // Parent heading and sections
  // ---------------------------------------------------------------------------

  /** The greatest index below `k` holding a heading. */
  function LastHeadingBefore(blocks: seq<Block>, k: nat): (r: Option<nat>)
    requires k <= |blocks|
    ensures r.Some? ==> r.value < k && blocks[r.value].kind == Heading
    ensures r.Some? ==> forall m :: r.value < m < k ==> blocks[m].kind != Heading
    ensures r.None? <==> forall m :: 0 <= m < k ==> blocks[m].kind != Heading
  {
    if k == 0 then None
    else if blocks[k - 1].kind == Heading then Some(k - 1)
    else LastHeadingBefore(blocks, k - 1)
  }

  /**
   * `findParentHeading`: the nearest heading strictly before the first block
   * with ID `id`; `None` when the ID is absent or no heading precedes it. The
   * result is never the block itself.
   */
  function ParentHeading(blocks: seq<Block>, id: string): (r: Option<Block>)
    ensures IndexOf(blocks, id).None? ==> r.None?
    ensures IndexOf(blocks, id).Some? ==>
      var k := IndexOf(blocks, id).value;
      && (r.None? <==> forall m :: 0 <= m < k ==> blocks[m].kind != Heading)
      && (r.Some? ==>
           exists j :: 0 <= j < k && blocks[j] == r.value && r.value.kind == Heading &&
             forall m :: j < m < k ==> blocks[m].kind != Heading)
    ensures r.Some? ==> r.value.id != id
  {
    match IndexOf(blocks, id)
    case None => None
    case Some(k) =>
      match LastHeadingBefore(blocks, k)
      case None => None
      case Some(j) => Some(blocks[j])
  }

  /** The backward loop of `findParentHeading`. */
  method FindParentHeading(blocks: seq<Block>, id: string) returns (r: Option<Block>)
    ensures r == ParentHeading(blocks, id)
  {
    var blockIndex := IndexOf(blocks, id);
    if blockIndex.None? {
      return None;
    }
    var i: nat := blockIndex.value;
    while i > 0
      invariant i <= blockIndex.value
      invariant LastHeadingBefore(blocks, i) == LastHeadingBefore(blocks, blockIndex.value)
    {
      i := i - 1;
      if blocks[i].kind == Heading {
        return Some(blocks[i]);
      }
    }
    return None;
  }

  /** A heading of level at most `level` (missing level read as 1) ends a section of that level. */
  predicate Closes(b: Block, level: int)
  {
    b.kind == Heading && LevelOr(b, 1) <= level
  }

  /** The first index from `from` on whose block ends a section of `level`, or the length. */
  function SectionEnd(blocks: seq<Block>, from: nat, level: int): (e: nat)
    requires from <= |blocks|
    ensures from <= e <= |blocks|
    ensures forall m :: from <= m < e ==> !Closes(blocks[m], level)
    ensures e < |blocks| ==> Closes(blocks[e], level)
    decreases |blocks| - from
  {
    if from == |blocks| || Closes(blocks[from], level) then from
    else SectionEnd(blocks, from + 1, level)
  }

  /**
   * `getBlocksInSection`: empty for an unknown ID or a non-heading; otherwise
   * the contiguous run of blocks from the heading up to, not including, the
   * next heading of the same or a higher level.
   */
  function Section(blocks: seq<Block>, id: string): (r: seq<Block>)
    ensures r == [] <==> IndexOf(blocks, id).None? || blocks[IndexOf(blocks, id).value].kind != Heading
    ensures r != [] ==>
      var k := IndexOf(blocks, id).value;
      var level := LevelOr(blocks[k], 1);
      && r[0] == blocks[k] && r[0].id == id
      && k + |r| <= |blocks| && r == blocks[k..k + |r|]
      && (forall m :: 0 < m < |r| ==> !Closes(r[m], level))
      && (k + |r| < |blocks| ==> Closes(blocks[k + |r|], level))
  {
    match IndexOf(blocks, id)
    case None => []
    case Some(k) =>
      if blocks[k].kind != Heading then []
      else blocks[k..SectionEnd(blocks, k + 1, LevelOr(blocks[k], 1))]
  }

  lemma SectionAt(blocks: seq<Block>, id: string, k: nat)
    requires IndexOf(blocks, id) == Some(k) && blocks[k].kind == Heading
    ensures Section(blocks, id) == blocks[k..SectionEnd(blocks, k + 1, LevelOr(blocks[k], 1))]
  {
  }

  /** The collecting loop of `getBlocksInSection`. */
  method GetBlocksInSection(blocks: seq<Block>, headingId: string) returns (sectionBlocks: seq<Block>)
    ensures sectionBlocks == Section(blocks, headingId)
  {
    var headingIndex := IndexOf(blocks, headingId);
    if headingIndex.None? {
      return [];
    }
    var k := headingIndex.value;
    var heading := blocks[k];
    if heading.kind != Heading {
      return [];
    }
    SectionAt(blocks, headingId, k);
    sectionBlocks := [heading];
    var headingLevel := LevelOr(heading, 1);
    var i := k + 1;
    while i < |blocks|
      invariant k + 1 <= i <= |blocks|
      invariant sectionBlocks == blocks[k..i]
      invariant SectionEnd(blocks, i, headingLevel) == SectionEnd(blocks, k + 1, headingLevel)
    {
      var block := blocks[i];
      if block.kind == Heading && LevelOr(block, 1) <= headingLevel {
        break;
      }
      SliceSnoc(blocks, k, i);
      sectionBlocks := sectionBlocks + [block];
      i := i + 1;
    }
  }
}
