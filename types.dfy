/**
 * The records shared by the parsers, the annotator and the redline builder
 * (the interfaces of app/lib/types.ts), and the fresh block identifiers that
 * stand in for `uuidv4()`.
 */
module Types {
  import opened Wrappers
  import opened Text

  datatype BlockType = Paragraph | Heading | ListItem | TableCell

  datatype ListKind = Bullet | Numbered

  /** `listInfo`: bullet or numbered marker, nesting depth, index among the list items before it. */
  datatype ListInfo = ListInfo(kind: ListKind, depth: nat, index: nat)

  /**
   * `DocumentBlock`. `level` is the optional heading level (`undefined` is `None`);
   * the offsets locate the block in the whole-document text.
   */
  datatype Block = Block(
    id: string,
    kind: BlockType,
    content: string,
    charStart: int,
    charEnd: int,
    level: Option<int>,
    listInfo: Option<ListInfo>)

  /** `block.level || d`: an absent or zero level falls back to `d`. */
  function LevelOr(b: Block, d: int): (l: int)
    ensures b.level.Some? && b.level.value != 0 ==> l == b.level.value
    ensures (b.level.None? || b.level.value == 0) ==> l == d
  {
    if b.level.Some? && b.level.value != 0 then b.level.value else d
  }

  /** The set of block IDs (`new Set(blocks.map(b => b.id))`). */
  function BlockIds(blocks: seq<Block>): (ids: set<string>)
    ensures forall b :: b in blocks ==> b.id in ids
    ensures forall id :: id in ids ==> exists k :: 0 <= k < |blocks| && blocks[k].id == id
  {
    set k | 0 <= k < |blocks| :: blocks[k].id
  }

  /** `blocks.findIndex(b => b.id === id)`, from position `from` on. */
  function IndexFrom(blocks: seq<Block>, id: string, from: nat): (r: Option<nat>)
    requires from <= |blocks|
    ensures r.Some? ==> from <= r.value < |blocks| && blocks[r.value].id == id
    ensures r.Some? ==> forall j :: from <= j < r.value ==> blocks[j].id != id
    ensures r.None? ==> forall j :: from <= j < |blocks| ==> blocks[j].id != id
    decreases |blocks| - from
  {
    if from == |blocks| then None
    else if blocks[from].id == id then Some(from)
    else IndexFrom(blocks, id, from + 1)
  }

  /** `blocks.findIndex(b => b.id === id)`: the first index holding `id`, `None` for -1. */
  function IndexOf(blocks: seq<Block>, id: string): (r: Option<nat>)
    ensures r.Some? ==> r.value < |blocks| && blocks[r.value].id == id
    ensures r.Some? ==> forall j :: 0 <= j < r.value ==> blocks[j].id != id
    ensures r.None? <==> id !in BlockIds(blocks)
  {
    IndexFrom(blocks, id, 0)
  }

  /** The map built by setting each of the first `n` blocks' identifier to its index, in order. */
  function LookupOf(blocks: seq<Block>, n: nat): map<string, nat>
    requires n <= |blocks|
  {
    if n == 0 then map[] else LookupOf(blocks, n - 1)[blocks[n - 1].id := n - 1]
  }

  /**
   * The keys are the identifiers of the first `n` blocks, and each maps to
   * the index of the last of them holding it.
   */
  lemma {:induction false} LookupLast(blocks: seq<Block>, n: nat)
    requires n <= |blocks|
    ensures forall id :: id in LookupOf(blocks, n) <==> exists k :: 0 <= k < n && blocks[k].id == id
    ensures forall id :: id in LookupOf(blocks, n) ==>
      && LookupOf(blocks, n)[id] < n
      && blocks[LookupOf(blocks, n)[id]].id == id
      && forall j :: LookupOf(blocks, n)[id] < j < n ==> blocks[j].id != id
  {
    if n > 0 {
      LookupLast(blocks, n - 1);
    }
  }

  /** Over all the blocks, the keys are the block identifiers. */
  lemma LookupKeys(blocks: seq<Block>)
    ensures LookupOf(blocks, |blocks|).Keys == BlockIds(blocks)
  {
    LookupLast(blocks, |blocks|);
  }

  /** With distinct identifiers, each block's identifier maps to its own index. */
  lemma LookupDistinct(blocks: seq<Block>)
    requires forall i, j :: 0 <= i < j < |blocks| ==> blocks[i].id != blocks[j].id
    ensures forall k :: 0 <= k < |blocks| ==>
      blocks[k].id in LookupOf(blocks, |blocks|) && LookupOf(blocks, |blocks|)[blocks[k].id] == k
  {
    LookupLast(blocks, |blocks|);
  }

  /** The identifier given to the `n`-th block created: a counter in place of `uuidv4()`. */
  function MakeId(n: nat): (id: string)
    ensures StartsWith(id, "block-")
  {
    "block-" + NatToString(n)
  }

  /** Fresh identifiers never collide. */
  lemma MakeIdInjective(a: nat, b: nat)
    requires MakeId(a) == MakeId(b)
    ensures a == b
  {
    assert MakeId(a)[6..] == NatToString(a);
    assert MakeId(b)[6..] == NatToString(b);
    NatToStringInjective(a, b);
  }

  /** The offset at which a block appended to `blocks` starts. */
  function NextOffset(blocks: seq<Block>): int
  {
    if |blocks| == 0 then 0 else blocks[|blocks| - 1].charEnd + 2
  }

  /**
   * `b` continues `blocks`: it has the next identifier, starts 2 after the
   * last block ends (at 0 when it is the first) and spans its content.
   */
  predicate Continues(blocks: seq<Block>, b: Block, firstId: nat)
  {
    b.id == MakeId(firstId + |blocks|) && b.charStart == NextOffset(blocks) && b.charEnd == b.charStart + |b.content|
  }

  /** The blocks a segmenter produced from counter value `firstId` on: each block continues the ones before it. */
  predicate Chained(blocks: seq<Block>, firstId: nat)
    decreases |blocks|
  {
    |blocks| == 0 || (Chained(blocks[..|blocks| - 1], firstId) && Continues(blocks[..|blocks| - 1], blocks[|blocks| - 1], firstId))
  }

  lemma ChainedSnoc(blocks: seq<Block>, b: Block, firstId: nat)
    requires Chained(blocks, firstId) && Continues(blocks, b, firstId)
    ensures Chained(blocks + [b], firstId)
  {
    assert (blocks + [b])[..|blocks|] == blocks;
  }

  /**
   * Block `k` of a chained list has identifier `MakeId(firstId + k)`, spans its
   * content, starts at 0 when it is the first and 2 after the previous one
   * ends otherwise.
   */
  lemma {:induction false} ChainedAt(blocks: seq<Block>, firstId: nat, k: nat)
    requires Chained(blocks, firstId) && k < |blocks|
    ensures blocks[k].id == MakeId(firstId + k)
    ensures blocks[k].charEnd == blocks[k].charStart + |blocks[k].content|
    ensures 0 <= blocks[k].charStart
    ensures k == 0 ==> blocks[k].charStart == 0
    ensures k > 0 ==> blocks[k].charStart == blocks[k - 1].charEnd + 2
    decreases |blocks|
  {
    var n := |blocks| - 1;
    if k < n {
      ChainedAt(blocks[..n], firstId, k);
    } else if k > 0 {
      ChainedAt(blocks[..n], firstId, k - 1);
    }
  }

  /** Blocks produced by a segmenter have pairwise distinct identifiers. */
  lemma ChainedIdsDistinct(blocks: seq<Block>, firstId: nat)
    requires Chained(blocks, firstId)
    ensures forall i, j :: 0 <= i < j < |blocks| ==> blocks[i].id != blocks[j].id
  {
    forall i, j | 0 <= i < j < |blocks| ensures blocks[i].id != blocks[j].id {
      ChainedAt(blocks, firstId, i);
      ChainedAt(blocks, firstId, j);
      if blocks[i].id == blocks[j].id { MakeIdInjective(firstId + i, firstId + j); }
    }
  }

  /** `blocks.map(b => b.content)`. */
  function Contents(blocks: seq<Block>): (r: seq<string>)
    ensures |r| == |blocks|
    ensures forall k :: 0 <= k < |blocks| ==> r[k] == blocks[k].content
  {
    seq(|blocks|, k requires 0 <= k < |blocks| => blocks[k].content)
  }

  /** The number of list-item blocks (`blocks.filter(b => b.type === 'list-item').length`). */
  function CountListItems(blocks: seq<Block>): (n: nat)
    ensures n <= |blocks|
  {
    if |blocks| == 0 then 0
    else CountListItems(blocks[..|blocks| - 1]) + (if blocks[|blocks| - 1].kind == ListItem then 1 else 0)
  }

  /** `AnalysisIssue`, with the fields this model reads. */
  datatype Issue = Issue(id: string, severity: string, title: string, sourceBlockIds: seq<string>)

  /** The `type` of an `EditOperation`; inbound operations may carry any other string. */
  datatype EditKind = ReplaceRange | DeleteRange | InsertAfter | OtherKind(name: string)

  /** `EditOperation`; `None` is a field that is missing (or, for offsets, not a number). */
  datatype EditOperation = EditOperation(
    id: string,
    kind: EditKind,
    blockId: string,
    startChar: Option<int>,
    endChar: Option<int>,
    newText: Option<string>,
    comment: Option<string>,
    issueId: string)

  /** A JavaScript truthiness test on an optional string: present and non-empty. */
  predicate Truthy(s: Option<string>)
  {
    s.Some? && s.value != ""
  }

  /** `AnalysisResult`, with the fields the export reads (missing text fields are `""`). */
  datatype AnalysisResult = AnalysisResult(
    classification: string,
    document: string,
    parties: string,
    contractType: string,
    term: string,
    governingLaw: string,
    issues: seq<Issue>,
    recommendation: string,
    nextSteps: seq<string>)

  datatype Metadata = Metadata(
    wordCount: nat,
    blockCount: nat,
    hasTablesOrLists: bool,
    pageCount: Option<nat>)

  /** `ParsedDocument` (the parse date is left out). */
  datatype ParsedDocument = ParsedDocument(
    filename: string,
    blocks: seq<Block>,
    fullText: string,
    annotatedText: string,
    metadata: Metadata)

  /** `ExportOptions` after defaulting. */
  datatype ExportOptions = ExportOptions(author: string, includeComments: bool, filename: string)
}
