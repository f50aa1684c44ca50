/**
 * The paragraph loop both parsers share (app/lib/docx-parser.ts and
 * app/lib/pdf-parser.ts): each non-blank paragraph, trimmed, becomes one
 * block with the next identifier, starting two characters after the previous
 * block ends. The parsers differ only in how they split the text and how they
 * classify a paragraph, so the loop is stated once over a block maker.
 */
module Segmentation {
  import opened Text
  import opened Types

  /**
   * Makes the block of a trimmed, non-blank paragraph from its text, its
   * identifier, its start offset and the number of list items made before it.
   */
  type BlockMaker = (string, string, int, nat) -> Block

  /** A block maker keeps the identifier, the text and the offsets it is given. */
  ghost predicate SpansText(make: BlockMaker)
  {
    forall t, id, offset, n {:trigger make(t, id, offset, n)} ::
      && make(t, id, offset, n).id == id
      && make(t, id, offset, n).content == t
      && make(t, id, offset, n).charStart == offset
      && make(t, id, offset, n).charEnd == offset + |t|
  }

  /**
   * The blocks of the first `n` paragraphs of `paras`: each non-blank one,
   * trimmed, is made into a block with the next identifier, starting where
   * the previous block's paragraph break ends.
   */
  function Segment(paras: seq<string>, n: nat, firstId: nat, make: BlockMaker): (blocks: seq<Block>)
    requires n <= |paras|
    ensures |blocks| <= n
  {
    if n == 0 then []
    else
      var prev := Segment(paras, n - 1, firstId, make);
      var p := paras[n - 1];
      if AllWhitespace(p) then prev
      else prev + [make(Trim(p), MakeId(firstId + |prev|), NextOffset(prev), CountListItems(prev))]
  }

  /** A blank paragraph adds no block. */
  lemma SegmentSkip(paras: seq<string>, i: nat, firstId: nat, make: BlockMaker)
    requires i < |paras| && AllWhitespace(paras[i])
    ensures Segment(paras, i + 1, firstId, make) == Segment(paras, i, firstId, make)
  {
  }

  /**
   * A non-blank paragraph adds the block made from it, trimmed (`t`), with
   * the next identifier number `id` and the next offset.
   */
  lemma SegmentAppend(paras: seq<string>, i: nat, firstId: nat, make: BlockMaker, blocks: seq<Block>,
                      t: string, id: nat, offset: int, b: Block)
    requires i < |paras| && !AllWhitespace(paras[i]) && blocks == Segment(paras, i, firstId, make)
    requires t == Trim(paras[i]) && id == firstId + |blocks| && offset == NextOffset(blocks)
    requires b == make(t, MakeId(id), offset, CountListItems(blocks))
    ensures Segment(paras, i + 1, firstId, make) == blocks + [b]
  {
  }

  /** The first `n` paragraphs of `paras` that are not blank, trimmed, in order. */
  function Kept(paras: seq<string>, n: nat): (r: seq<string>)
    requires n <= |paras|
    ensures |r| <= n
  {
    if n == 0 then []
    else Kept(paras, n - 1) + (if AllWhitespace(paras[n - 1]) then [] else [Trim(paras[n - 1])])
  }

  /**
   * One block per non-blank paragraph, in order: the contents are the kept
   * paragraphs, each trimmed and non-empty.
   */
  lemma {:induction false} SegmentContents(paras: seq<string>, n: nat, firstId: nat, make: BlockMaker)
    requires n <= |paras| && SpansText(make)
    ensures Contents(Segment(paras, n, firstId, make)) == Kept(paras, n)
    decreases n
  {
    if n > 0 {
      var prev := Segment(paras, n - 1, firstId, make);
      SegmentContents(paras, n - 1, firstId, make);
      if !AllWhitespace(paras[n - 1]) {
        var b := make(Trim(paras[n - 1]), MakeId(firstId + |prev|), NextOffset(prev), CountListItems(prev));
        ContentsSnoc(prev, b);
      }
    }
  }

  lemma ContentsSnoc(blocks: seq<Block>, b: Block)
    ensures Contents(blocks + [b]) == Contents(blocks) + [b.content]
  {
  }

  /** A kept paragraph is trimmed and not empty. */
  lemma {:induction false} KeptTrimmed(paras: seq<string>, n: nat)
    requires n <= |paras|
    ensures forall t :: t in Kept(paras, n) ==> IsTrimmed(t) && t != ""
    decreases n
  {
    if n > 0 {
      KeptTrimmed(paras, n - 1);
      TrimEmpty(paras[n - 1]);
      TrimIsTrimmed(paras[n - 1]);
    }
  }

  /** Paragraphs already trimmed and non-empty are all kept, unchanged. */
  lemma {:induction false} KeptAllTrimmed(paras: seq<string>, n: nat)
    requires n <= |paras|
    requires forall k :: 0 <= k < n ==> IsTrimmed(paras[k]) && paras[k] != ""
    ensures Kept(paras, n) == paras[..n]
    decreases n
  {
    if n > 0 {
      KeptAllTrimmed(paras, n - 1);
      TrimOfTrimmed(paras[n - 1]);
      TrimEmpty(paras[n - 1]);
      assert paras[..n] == paras[..n - 1] + [paras[n - 1]];
    }
  }

  /**
   * The identifiers run `MakeId(firstId)`, `MakeId(firstId + 1)`, ...; each
   * block spans its content's length, the first starts at 0 and each next one
   * starts 2 after the previous one ends.
   */
  lemma {:induction false} SegmentChained(paras: seq<string>, n: nat, firstId: nat, make: BlockMaker)
    requires n <= |paras| && SpansText(make)
    ensures Chained(Segment(paras, n, firstId, make), firstId)
    decreases n
  {
    if n > 0 {
      var prev := Segment(paras, n - 1, firstId, make);
      SegmentChained(paras, n - 1, firstId, make);
      if !AllWhitespace(paras[n - 1]) {
        var b := make(Trim(paras[n - 1]), MakeId(firstId + |prev|), NextOffset(prev), CountListItems(prev));
        assert Continues(prev, b, firstId);
        ChainedSnoc(prev, b, firstId);
      }
    }
  }

  /** Every block a maker makes satisfies `inv` with the number of list items before it. */
  ghost predicate MakesOnly(make: BlockMaker, inv: (Block, nat) -> bool)
  {
    forall t, id, offset, c {:trigger make(t, id, offset, c)} :: inv(make(t, id, offset, c), c)
  }

  /** Each block satisfies `inv` with the number of list items before it. */
  ghost predicate Holds(blocks: seq<Block>, inv: (Block, nat) -> bool)
    decreases |blocks|
  {
    |blocks| == 0
    || (Holds(blocks[..|blocks| - 1], inv) && inv(blocks[|blocks| - 1], CountListItems(blocks[..|blocks| - 1])))
  }

  lemma HoldsSnoc(blocks: seq<Block>, b: Block, inv: (Block, nat) -> bool)
    requires Holds(blocks, inv) && inv(b, CountListItems(blocks))
    ensures Holds(blocks + [b], inv)
  {
    assert (blocks + [b])[..|blocks|] == blocks;
  }

  lemma {:induction false} HoldsAt(blocks: seq<Block>, inv: (Block, nat) -> bool, k: nat)
    requires Holds(blocks, inv) && k < |blocks|
    ensures inv(blocks[k], CountListItems(blocks[..k]))
    decreases |blocks|
  {
    var n := |blocks| - 1;
    if k < n {
      HoldsAt(blocks[..n], inv, k);
      assert blocks[..n][..k] == blocks[..k];
    }
  }

  /** What holds of each block made holds of each block of the segmentation, the count being of the blocks before it. */
  lemma {:induction false} SegmentMakesOnly(paras: seq<string>, n: nat, firstId: nat, make: BlockMaker, inv: (Block, nat) -> bool)
    requires n <= |paras| && MakesOnly(make, inv)
    ensures Holds(Segment(paras, n, firstId, make), inv)
    decreases n
  {
    if n > 0 {
      var prev := Segment(paras, n - 1, firstId, make);
      SegmentMakesOnly(paras, n - 1, firstId, make, inv);
      if !AllWhitespace(paras[n - 1]) {
        var b := make(Trim(paras[n - 1]), MakeId(firstId + |prev|), NextOffset(prev), CountListItems(prev));
        HoldsSnoc(prev, b, inv);
      }
    }
  }

  /** `blocks.map(b => b.content).join('\n\n')`: the full text of a Word document. */
  function JoinedText(blocks: seq<Block>): string
  {
    Join(Contents(blocks), "\n\n")
  }

  lemma JoinedTextSnoc(blocks: seq<Block>, b: Block)
    requires |blocks| > 0
    ensures JoinedText(blocks + [b]) == JoinedText(blocks) + "\n\n" + b.content
  {
    assert Contents(blocks + [b]) == Contents(blocks) + [b.content];
    JoinSnoc(Contents(blocks), b.content, "\n\n");
  }

  /** With chained offsets the joined text ends where the last block ends. */
  lemma {:induction false} JoinedTextLength(blocks: seq<Block>, firstId: nat)
    requires Chained(blocks, firstId) && |blocks| > 0
    ensures |JoinedText(blocks)| == blocks[|blocks| - 1].charEnd
    decreases |blocks|
  {
    var n := |blocks| - 1;
    ChainedAt(blocks, firstId, n);
    if n == 0 {
      assert Contents(blocks) == [blocks[0].content];
    } else {
      assert blocks == blocks[..n] + [blocks[n]];
      JoinedTextSnoc(blocks[..n], blocks[n]);
      JoinedTextLength(blocks[..n], firstId);
    }
  }

  /** With chained offsets block `k`'s content is the joined text between its offsets. */
  lemma {:induction false} JoinedTextSlice(blocks: seq<Block>, firstId: nat, k: nat)
    requires Chained(blocks, firstId) && k < |blocks|
    ensures 0 <= blocks[k].charStart <= blocks[k].charEnd <= |JoinedText(blocks)|
    ensures JoinedText(blocks)[blocks[k].charStart..blocks[k].charEnd] == blocks[k].content
    decreases |blocks|
  {
    var n := |blocks| - 1;
    ChainedAt(blocks, firstId, k);
    if n == 0 {
      assert Contents(blocks) == [blocks[0].content];
    } else {
      var prev := blocks[..n];
      assert blocks == prev + [blocks[n]];
      if k < n {
        JoinedTextSlice(prev, firstId, k);
        SliceInPrefix(prev, blocks[n], blocks[k].charStart, blocks[k].charEnd);
      } else {
        JoinedTextLength(prev, firstId);
        SliceAtEnd(prev, blocks[n]);
      }
    }
  }

  lemma SliceInPrefix(prev: seq<Block>, b: Block, lo: nat, hi: nat)
    requires |prev| > 0 && lo <= hi <= |JoinedText(prev)|
    ensures hi <= |JoinedText(prev + [b])|
    ensures JoinedText(prev + [b])[lo..hi] == JoinedText(prev)[lo..hi]
  {
    JoinedTextSnoc(prev, b);
    SliceOfPrefix(JoinedText(prev), "\n\n" + b.content, lo, hi);
  }

  lemma SliceAtEnd(prev: seq<Block>, b: Block)
    requires |prev| > 0
    ensures |JoinedText(prev + [b])| == |JoinedText(prev)| + 2 + |b.content|
    ensures JoinedText(prev + [b])[|JoinedText(prev)| + 2..|JoinedText(prev)| + 2 + |b.content|] == b.content
  {
    JoinedTextSnoc(prev, b);
    SliceOfSuffix(JoinedText(prev) + "\n\n", b.content);
  }

  lemma SliceOfPrefix(a: string, b: string, lo: nat, hi: nat)
    requires lo <= hi <= |a|
    ensures (a + b)[lo..hi] == a[lo..hi]
  {
  }

  lemma SliceOfSuffix(a: string, b: string)
    ensures (a + b)[|a|..|a| + |b|] == b
  {
  }

  /**
   * With the offsets of a chained segmentation, joining the contents with
   * blank lines puts each block's content exactly between its offsets, and
   * the joined text ends where the last block ends.
   */
  lemma FullTextSlices(blocks: seq<Block>, firstId: nat)
    requires Chained(blocks, firstId)
    ensures |blocks| > 0 ==> |JoinedText(blocks)| == blocks[|blocks| - 1].charEnd
    ensures forall k :: 0 <= k < |blocks| ==>
      0 <= blocks[k].charStart <= blocks[k].charEnd <= |JoinedText(blocks)|
      && JoinedText(blocks)[blocks[k].charStart..blocks[k].charEnd] == blocks[k].content
  {
    if |blocks| > 0 {
      JoinedTextLength(blocks, firstId);
    }
    forall k | 0 <= k < |blocks|
      ensures 0 <= blocks[k].charStart <= blocks[k].charEnd <= |JoinedText(blocks)|
      ensures JoinedText(blocks)[blocks[k].charStart..blocks[k].charEnd] == blocks[k].content
    {
      JoinedTextSlice(blocks, firstId, k);
    }
  }
}
