/**
 * The document assembly of `buildRedlineDocx` and `buildCleanDocx`
 * (app/lib/redline-builder.ts): edits on unknown blocks are dropped, the
 * rest grouped by block, comments numbered, and the blocks walked in
 * document order. Paragraphs are plain datatypes; the Word objects, the
 * summary table, headers, footers and dates are not modelled.
 */
module Assembler {
  import opened Wrappers
  import opened Text
  import opened Types
  import opened Redline
  import opened RedlineBuilder
  import opened Annotator

  // ---------------------------------------------------------------------------
  // Labels
  // ---------------------------------------------------------------------------

  /** `classificationLabel`. */
  function ClassificationLabel(c: string): (r: string)
    ensures c == "red" ==> r == "RED \U{2014} ESCALATION REQUIRED"
    ensures c == "yellow" ==> r == "YELLOW \U{2014} COUNSEL REVIEW"
    ensures c != "red" && c != "yellow" ==> r == "GREEN \U{2014} STANDARD APPROVAL"
  {
    if c == "red" then "RED \U{2014} ESCALATION REQUIRED"
    else if c == "yellow" then "YELLOW \U{2014} COUNSEL REVIEW"
    else "GREEN \U{2014} STANDARD APPROVAL"
  }

  /** `CLASSIFICATION_COLORS[c] || '000000'`. */
  function ClassificationColor(c: string): (r: string)
    ensures c == "red" ==> r == "C62828"
    ensures c == "yellow" ==> r == "F9A825"
    ensures c == "green" ==> r == "2E7D32"
    ensures c != "red" && c != "yellow" && c != "green" ==> r == "000000"
  {
    if c == "red" then "C62828"
    else if c == "yellow" then "F9A825"
    else if c == "green" then "2E7D32"
    else "000000"
  }

  /** `options.author || 'Consello Legal AI'`. */
  function AuthorOr(author: string): (r: string)
    ensures author != "" ==> r == author
    ensures author == "" ==> r == "Consello Legal AI"
  {
    if author != "" then author else "Consello Legal AI"
  }

  // ---------------------------------------------------------------------------
  // Validation and grouping
  // ---------------------------------------------------------------------------

  /** `selectedEdits.filter(edit => blockIds.has(edit.blockId))`, in input order. */
  function KnownEdits(ids: set<string>, edits: seq<EditOperation>): (r: seq<EditOperation>)
    ensures |r| <= |edits|
  {
    if |edits| == 0 then []
    else (if edits[0].blockId in ids then [edits[0]] else []) + KnownEdits(ids, edits[1..])
  }

  /** Exactly the edits on known blocks survive validation. */
  lemma {:induction false} KnownEditsMembers(ids: set<string>, edits: seq<EditOperation>)
    ensures forall e :: e in KnownEdits(ids, edits) <==> e in edits && e.blockId in ids
  {
    if |edits| > 0 {
      KnownEditsMembers(ids, edits[1..]);
      assert edits == [edits[0]] + edits[1..];
    }
  }

  lemma {:induction false} KnownEditsAppend(ids: set<string>, a: seq<EditOperation>, b: seq<EditOperation>)
    ensures KnownEdits(ids, a + b) == KnownEdits(ids, a) + KnownEdits(ids, b)
  {
    if |a| == 0 {
      assert a + b == b;
    } else {
      var h := if a[0].blockId in ids then [a[0]] else [];
      assert (a + b)[0] == a[0] && (a + b)[1..] == a[1..] + b;
      assert KnownEdits(ids, a + b) == h + KnownEdits(ids, a[1..] + b);
      assert KnownEdits(ids, a) == h + KnownEdits(ids, a[1..]);
      KnownEditsAppend(ids, a[1..], b);
      assert h + (KnownEdits(ids, a[1..]) + KnownEdits(ids, b)) == (h + KnownEdits(ids, a[1..])) + KnownEdits(ids, b);
    }
  }

  /** The edits of `edits` on block `id`, in input order. */
  function EditsFor(edits: seq<EditOperation>, id: string): (r: seq<EditOperation>)
    ensures |r| <= |edits|
  {
    if |edits| == 0 then []
    else
      var last := edits[|edits| - 1];
      EditsFor(edits[..|edits| - 1], id) + (if last.blockId == id then [last] else [])
  }

  /** Exactly the edits on block `id`. */
  lemma {:induction false} EditsForMembers(edits: seq<EditOperation>, id: string)
    ensures forall e :: e in EditsFor(edits, id) <==> e in edits && e.blockId == id
  {
    if |edits| > 0 {
      EditsForMembers(edits[..|edits| - 1], id);
      assert edits == edits[..|edits| - 1] + [edits[|edits| - 1]];
    }
  }

  /** `m` maps exactly the blocks `done` edits, each to its edits in order. */
  ghost predicate Grouped(m: map<string, seq<EditOperation>>, done: seq<EditOperation>)
  {
    forall id :: (id in m <==> |EditsFor(done, id)| > 0) && (id in m ==> m[id] == EditsFor(done, id))
  }

  lemma GroupStep(m: map<string, seq<EditOperation>>, done: seq<EditOperation>, e: EditOperation,
                  next: map<string, seq<EditOperation>>)
    requires Grouped(m, done)
    requires next == m[e.blockId := GroupOf(m, e.blockId) + [e]]
    ensures Grouped(next, done + [e])
  {
    var t := done + [e];
    assert t[..|t| - 1] == done;
  }

  /** The grouping loop: `editsByBlock`. */
  method GroupEdits(edits: seq<EditOperation>) returns (editsByBlock: map<string, seq<EditOperation>>)
    ensures Grouped(editsByBlock, edits)
  {
    editsByBlock := map[];
    for i := 0 to |edits|
      invariant Grouped(editsByBlock, edits[..i])
    {
      var edit := edits[i];
      var existing := GroupOf(editsByBlock, edit.blockId);
      var next := editsByBlock[edit.blockId := existing + [edit]];
      GroupStep(editsByBlock, edits[..i], edit, next);
      assert edits[..i + 1] == edits[..i] + [edit];
      editsByBlock := next;
    }
    assert edits[..|edits|] == edits;
  }

  /** `editsByBlock.get(id)`, with a missing entry read as no edits. */
  function GroupOf(m: map<string, seq<EditOperation>>, id: string): seq<EditOperation>
  {
    if id in m then m[id] else []
  }

  lemma GroupOfGrouped(m: map<string, seq<EditOperation>>, done: seq<EditOperation>, id: string)
    requires Grouped(m, done)
    ensures GroupOf(m, id) == EditsFor(done, id)
  {
  }

  // ---------------------------------------------------------------------------
  // Comments
  // ---------------------------------------------------------------------------

  /** A comment definition (its date is not modelled). */
  datatype Comment = Comment(id: nat, initials: string, author: string, text: string)

  /** The edits that carry a comment, in order. */
  function Commented(edits: seq<EditOperation>): (r: seq<EditOperation>)
    ensures |r| <= |edits|
    ensures forall i :: 0 <= i < |r| ==> Truthy(r[i].comment)
  {
    if |edits| == 0 then []
    else (if Truthy(edits[0].comment) then [edits[0]] else []) + Commented(edits[1..])
  }

  lemma {:induction false} CommentedMembers(edits: seq<EditOperation>)
    ensures forall e :: e in Commented(edits) <==> e in edits && Truthy(e.comment)
  {
    if |edits| > 0 {
      CommentedMembers(edits[1..]);
      assert edits == [edits[0]] + edits[1..];
    }
  }

  /** The comments the loop creates from counter value `counter` on. */
  function CommentsFrom(edits: seq<EditOperation>, counter: nat, author: string): seq<Comment>
  {
    if |edits| == 0 then []
    else if Truthy(edits[0].comment) then
      [Comment(counter, "CLA", author, edits[0].comment.value)] + CommentsFrom(edits[1..], counter + 1, author)
    else CommentsFrom(edits[1..], counter, author)
  }

  /** `commentIdMap` after the loop, starting from `acc`: a later comment on the same edit ID overwrites. */
  function IdMapFrom(edits: seq<EditOperation>, counter: nat, acc: map<string, nat>): map<string, nat>
  {
    if |edits| == 0 then acc
    else if Truthy(edits[0].comment) then IdMapFrom(edits[1..], counter + 1, acc[edits[0].id := counter])
    else IdMapFrom(edits[1..], counter, acc)
  }

  lemma CommentStep(edits: seq<EditOperation>, i: nat, counter: nat, author: string, acc: map<string, nat>,
                    done: seq<Comment>, total: seq<Comment>, totalMap: map<string, nat>)
    requires i < |edits|
    requires done + CommentsFrom(edits[i..], counter, author) == total
    requires IdMapFrom(edits[i..], counter, acc) == totalMap
    ensures Truthy(edits[i].comment) ==>
      && (done + [Comment(counter, "CLA", author, edits[i].comment.value)]) + CommentsFrom(edits[i + 1..], counter + 1, author) == total
      && IdMapFrom(edits[i + 1..], counter + 1, acc[edits[i].id := counter]) == totalMap
    ensures !Truthy(edits[i].comment) ==>
      && done + CommentsFrom(edits[i + 1..], counter, author) == total
      && IdMapFrom(edits[i + 1..], counter, acc) == totalMap
  {
    assert edits[i..][0] == edits[i] && edits[i..][1..] == edits[i + 1..];
    if Truthy(edits[i].comment) {
      var c := Comment(counter, "CLA", author, edits[i].comment.value);
      var rest := CommentsFrom(edits[i + 1..], counter + 1, author);
      assert (done + [c]) + rest == done + ([c] + rest);
    }
  }

  /** The comment loop of `buildRedlineDocx`: IDs from a counter starting at 1. */
  method AssignCommentIds(edits: seq<EditOperation>, author: string)
    returns (commentIdMap: map<string, nat>, comments: seq<Comment>)
    ensures commentIdMap == IdMapFrom(edits, 1, map[])
    ensures comments == CommentsFrom(edits, 1, author)
  {
    var commentIdCounter: nat := 1;
    commentIdMap := map[];
    comments := [];
    ghost var total := CommentsFrom(edits, 1, author);
    ghost var totalMap := IdMapFrom(edits, 1, map[]);
    for i := 0 to |edits|
      invariant comments + CommentsFrom(edits[i..], commentIdCounter, author) == total
      invariant IdMapFrom(edits[i..], commentIdCounter, commentIdMap) == totalMap
    {
      var edit := edits[i];
      CommentStep(edits, i, commentIdCounter, author, commentIdMap, comments, total, totalMap);
      if edit.comment.Some? && edit.comment.value != "" {
        var cId := commentIdCounter;
        commentIdCounter := commentIdCounter + 1;
        commentIdMap := commentIdMap[edit.id := cId];
        comments := comments + [Comment(cId, "CLA", author, edit.comment.value)];
      }
    }
    assert edits[|edits|..] == [];
  }

  /** The `k`-th comment created from `counter` on has ID `counter + k` and the `k`-th commented edit's text. */
  lemma {:induction false} CommentsShape(edits: seq<EditOperation>, counter: nat, author: string)
    ensures |CommentsFrom(edits, counter, author)| == |Commented(edits)|
    ensures forall k :: 0 <= k < |Commented(edits)| ==>
      CommentsFrom(edits, counter, author)[k] == Comment(counter + k, "CLA", author, Commented(edits)[k].comment.value)
  {
    if |edits| > 0 {
      if Truthy(edits[0].comment) {
        CommentsShape(edits[1..], counter + 1, author);
      } else {
        CommentsShape(edits[1..], counter, author);
      }
    }
  }

  /** Some edit of `cs` has ID `id`. */
  ghost predicate HasId(cs: seq<EditOperation>, id: string)
  {
    exists k :: 0 <= k < |cs| && cs[k].id == id
  }

  /** Counting the edits of `cs` from `counter`, one with ID `id` gets number `v`. */
  ghost predicate NumberedAt(cs: seq<EditOperation>, id: string, v: nat, counter: nat)
  {
    exists k :: 0 <= k < |cs| && cs[k].id == id && v == counter + k
  }

  lemma ConsIds(e: EditOperation, rest: seq<EditOperation>, id: string, v: nat, counter: nat)
    ensures HasId([e] + rest, id) <==> e.id == id || HasId(rest, id)
    ensures NumberedAt([e] + rest, id, v, counter) <==> (e.id == id && v == counter) || NumberedAt(rest, id, v, counter + 1)
  {
    var cs := [e] + rest;
    if HasId(cs, id) {
      var k :| 0 <= k < |cs| && cs[k].id == id;
      if k > 0 { assert rest[k - 1] == cs[k]; }
    }
    if HasId(rest, id) {
      var k :| 0 <= k < |rest| && rest[k].id == id;
      assert cs[k + 1] == rest[k];
    }
    if NumberedAt(cs, id, v, counter) {
      var k :| 0 <= k < |cs| && cs[k].id == id && v == counter + k;
      if k > 0 { assert rest[k - 1] == cs[k]; }
    }
    if NumberedAt(rest, id, v, counter + 1) {
      var k :| 0 <= k < |rest| && rest[k].id == id && v == counter + 1 + k;
      assert cs[k + 1] == rest[k];
    }
    if e.id == id {
      assert cs[0].id == id;
      assert HasId(cs, id);
      if v == counter { assert NumberedAt(cs, id, v, counter); }
    }
  }

  /** Every entry of the ID map is an entry of `acc` or the counter value of a commented edit with that ID. */
  lemma {:induction false} IdMapShape(edits: seq<EditOperation>, counter: nat, acc: map<string, nat>)
    ensures forall id :: id in IdMapFrom(edits, counter, acc) <==> id in acc || HasId(Commented(edits), id)
    ensures forall id :: id in IdMapFrom(edits, counter, acc) ==>
      || (id in acc && IdMapFrom(edits, counter, acc)[id] == acc[id])
      || NumberedAt(Commented(edits), id, IdMapFrom(edits, counter, acc)[id], counter)
  {
    if |edits| > 0 {
      var e := edits[0];
      var cs := Commented(edits);
      var rest := Commented(edits[1..]);
      if Truthy(e.comment) {
        var acc' := acc[e.id := counter];
        IdMapShape(edits[1..], counter + 1, acc');
        assert cs == [e] + rest;
        var m := IdMapFrom(edits, counter, acc);
        assert m == IdMapFrom(edits[1..], counter + 1, acc');
        forall id ensures id in m <==> id in acc || HasId(cs, id) {
          ConsIds(e, rest, id, 0, counter);
        }
        forall id | id in m
          ensures (id in acc && m[id] == acc[id]) || NumberedAt(cs, id, m[id], counter)
        {
          ConsIds(e, rest, id, m[id], counter);
        }
      } else {
        IdMapShape(edits[1..], counter, acc);
        assert cs == rest;
      }
    }
  }

  /** Comment IDs are 1, 2, ... in creation order, one comment per commented edit. */
  lemma CommentNumbers(edits: seq<EditOperation>, author: string)
    ensures |CommentsFrom(edits, 1, author)| == |Commented(edits)|
    ensures forall k :: 0 <= k < |CommentsFrom(edits, 1, author)| ==> CommentsFrom(edits, 1, author)[k].id == k + 1
  {
    CommentsShape(edits, 1, author);
  }

  /** An edit ID is in the comment map exactly when some validated edit with that ID has a comment. */
  lemma CommentKeys(edits: seq<EditOperation>)
    ensures forall id :: id in IdMapFrom(edits, 1, map[]) <==> exists e :: e in edits && e.id == id && Truthy(e.comment)
  {
    var m := IdMapFrom(edits, 1, map[]);
    var cm := Commented(edits);
    IdMapShape(edits, 1, map[]);
    CommentedMembers(edits);
    forall id ensures id in m <==> exists e :: e in edits && e.id == id && Truthy(e.comment) {
      if id in m {
        assert HasId(cm, id);
        var k :| 0 <= k < |cm| && cm[k].id == id;
        assert cm[k] in cm;
      }
      if exists e :: e in edits && e.id == id && Truthy(e.comment) {
        var e :| e in edits && e.id == id && Truthy(e.comment);
        assert e in cm;
        var k :| 0 <= k < |cm| && cm[k] == e;
        assert HasId(cm, id);
      }
    }
  }

  /** The comment an edit ID maps to exists and holds the text of a commented edit with that ID. */
  lemma CommentTargets(edits: seq<EditOperation>, author: string)
    ensures forall id :: id in IdMapFrom(edits, 1, map[]) ==>
      && 1 <= IdMapFrom(edits, 1, map[])[id] <= |CommentsFrom(edits, 1, author)|
      && exists e :: e in edits && e.id == id && Truthy(e.comment)
           && CommentsFrom(edits, 1, author)[IdMapFrom(edits, 1, map[])[id] - 1].text == e.comment.value
  {
    var cs := CommentsFrom(edits, 1, author);
    var m := IdMapFrom(edits, 1, map[]);
    var cm := Commented(edits);
    CommentsShape(edits, 1, author);
    IdMapShape(edits, 1, map[]);
    forall id | id in m
      ensures 1 <= m[id] <= |cs| &&
        exists e :: e in edits && e.id == id && Truthy(e.comment) && cs[m[id] - 1].text == e.comment.value
    {
      assert NumberedAt(cm, id, m[id], 1);
      var k :| 0 <= k < |cm| && cm[k].id == id && m[id] == 1 + k;
      CommentedMembers(edits);
      assert cm[k] in cm && cs[k].text == cm[k].comment.value;
    }
  }

  /** Distinct edit IDs never share a comment ID. */
  lemma CommentIdsDistinct(edits: seq<EditOperation>)
    ensures forall a, b :: a in IdMapFrom(edits, 1, map[]) && b in IdMapFrom(edits, 1, map[]) && a != b ==>
      IdMapFrom(edits, 1, map[])[a] != IdMapFrom(edits, 1, map[])[b]
  {
    var m := IdMapFrom(edits, 1, map[]);
    var cm := Commented(edits);
    IdMapShape(edits, 1, map[]);
    forall a, b | a in m && b in m && a != b ensures m[a] != m[b] {
      assert NumberedAt(cm, a, m[a], 1) && NumberedAt(cm, b, m[b], 1);
      var ka :| 0 <= ka < |cm| && cm[ka].id == a && m[a] == 1 + ka;
      var kb :| 0 <= kb < |cm| && cm[kb].id == b && m[b] == 1 + kb;
    }
  }

  // ---------------------------------------------------------------------------
  // The redline body
  // ---------------------------------------------------------------------------

  /** A paragraph of the tracked-changes section: a section heading or an edited block. */
  datatype Item = SectionHeading(text: string) | EditedParagraph(runs: seq<Run>)

  /** The heading label of a block: its parent heading's content, else `General Provisions`. */
  function SectionLabel(blocks: seq<Block>, b: Block): string
  {
    match ParentHeading(blocks, b.id)
    case None => "General Provisions"
    case Some(h) => h.content
  }

  /**
   * The block loop below is written over a labelling and a rendering of
   * blocks; `buildRedlineDocx` uses `SectionLabels` and `BlockRenderer`.
   */
  type Labelling = Block -> string
  type Rendering = (Block, seq<EditOperation>, nat) -> Rendered

  function SectionLabels(blocks: seq<Block>): Labelling
  {
    b => SectionLabel(blocks, b)
  }

  function BlockRenderer(commentIds: map<string, nat>): Rendering
  {
    (b: Block, es: seq<EditOperation>, rev: nat) => RenderBlock(b.content, es, rev, commentIds)
  }

  datatype Step = Step(items: seq<Item>, nextRevision: nat, emitted: set<string>)

  /** One turn of the block loop, for block `k`. */
  function BlockStep(blocks: seq<Block>, k: nat, valid: seq<EditOperation>, labelOf: Labelling, render: Rendering,
                     revision: nat, emitted: set<string>): Step
    requires k < |blocks|
  {
    var b := blocks[k];
    var es := EditsFor(valid, b.id);
    if |es| == 0 then Step([], revision, emitted)
    else
      var lbl := labelOf(b);
      var r := render(b, es, revision);
      Step((if lbl in emitted then [] else [SectionHeading(lbl)]) + [EditedParagraph(r.runs)],
        r.nextRevision, emitted + {lbl})
  }

  datatype Body = Body(items: seq<Item>, nextRevision: nat)

  /** The block loop from block `k` on. */
  function BodyFrom(blocks: seq<Block>, k: nat, valid: seq<EditOperation>, labelOf: Labelling, render: Rendering,
                    revision: nat, emitted: set<string>): Body
    requires k <= |blocks|
    decreases |blocks| - k
  {
    if k == |blocks| then Body([], revision)
    else
      var s := BlockStep(blocks, k, valid, labelOf, render, revision, emitted);
      var rest := BodyFrom(blocks, k + 1, valid, labelOf, render, s.nextRevision, s.emitted);
      Body(s.items + rest.items, rest.nextRevision)
  }

  /** The body of the block loop. */
  method EmitBlock(blocks: seq<Block>, k: nat, editsByBlock: map<string, seq<EditOperation>>, ghost valid: seq<EditOperation>,
                   commentIds: map<string, nat>, revision: nat, emitted: set<string>)
    returns (piece: seq<Item>, nextRevision: nat, emittedAfter: set<string>)
    requires k < |blocks|
    requires Grouped(editsByBlock, valid)
    ensures Step(piece, nextRevision, emittedAfter)
         == BlockStep(blocks, k, valid, SectionLabels(blocks), BlockRenderer(commentIds), revision, emitted)
  {
    var block := blocks[k];
    var blockEdits := GroupOf(editsByBlock, block.id);
    GroupOfGrouped(editsByBlock, valid, block.id);
    piece, nextRevision, emittedAfter := [], revision, emitted;
    if |blockEdits| == 0 {
      return;
    }
    var heading := FindParentHeading(blocks, block.id);
    var sectionLabel := if heading.Some? then heading.value.content else "General Provisions";
    var head: seq<Item> := [];
    if sectionLabel !in emitted {
      emittedAfter := emitted + {sectionLabel};
      head := [SectionHeading(sectionLabel)];
    } else {
      emittedAfter := emitted;
    }
    var runs;
    runs, nextRevision := ApplyEditsToBlock(block.content, blockEdits, revision, commentIds);
    piece := head + [EditedParagraph(runs)];
    EditedStep(blocks, k, valid, SectionLabels(blocks), BlockRenderer(commentIds), revision, emitted,
      sectionLabel, Rendered(runs, nextRevision));
  }

  /** The step for an edited block, from its label and its rendering. */
  lemma EditedStep(blocks: seq<Block>, k: nat, valid: seq<EditOperation>, labelOf: Labelling, render: Rendering,
                   revision: nat, emitted: set<string>, lbl: string, r: Rendered)
    requires k < |blocks| && |EditsFor(valid, blocks[k].id)| > 0
    requires lbl == labelOf(blocks[k]) && r == render(blocks[k], EditsFor(valid, blocks[k].id), revision)
    ensures BlockStep(blocks, k, valid, labelOf, render, revision, emitted)
         == Step((if lbl in emitted then [] else [SectionHeading(lbl)]) + [EditedParagraph(r.runs)],
              r.nextRevision, if lbl in emitted then emitted else emitted + {lbl})
  {
    if lbl in emitted {
      assert emitted + {lbl} == emitted;
    }
  }

  lemma BodyAdvance(blocks: seq<Block>, k: nat, valid: seq<EditOperation>, labelOf: Labelling, render: Rendering,
                    revision: nat, emitted: set<string>, s: Step, done: seq<Item>, total: Body)
    requires k < |blocks|
    requires s == BlockStep(blocks, k, valid, labelOf, render, revision, emitted)
    requires done + BodyFrom(blocks, k, valid, labelOf, render, revision, emitted).items == total.items
    requires BodyFrom(blocks, k, valid, labelOf, render, revision, emitted).nextRevision == total.nextRevision
    ensures (done + s.items) + BodyFrom(blocks, k + 1, valid, labelOf, render, s.nextRevision, s.emitted).items == total.items
    ensures BodyFrom(blocks, k + 1, valid, labelOf, render, s.nextRevision, s.emitted).nextRevision == total.nextRevision
  {
    var rest := BodyFrom(blocks, k + 1, valid, labelOf, render, s.nextRevision, s.emitted);
    assert BodyFrom(blocks, k, valid, labelOf, render, revision, emitted) == Body(s.items + rest.items, rest.nextRevision);
    assert (done + s.items) + rest.items == done + (s.items + rest.items);
  }

  /** The block loop of `buildRedlineDocx`, with the revision counter starting at 1. */
  method RenderBody(blocks: seq<Block>, editsByBlock: map<string, seq<EditOperation>>, ghost valid: seq<EditOperation>,
                    commentIds: map<string, nat>)
    returns (items: seq<Item>)
    requires Grouped(editsByBlock, valid)
    ensures items == BodyFrom(blocks, 0, valid, SectionLabels(blocks), BlockRenderer(commentIds), 1, {}).items
  {
    ghost var labelOf, render := SectionLabels(blocks), BlockRenderer(commentIds);
    ghost var total := BodyFrom(blocks, 0, valid, labelOf, render, 1, {});
    items := [];
    var revision: nat := 1;
    var emittedSections: set<string> := {};
    for i := 0 to |blocks|
      invariant items + BodyFrom(blocks, i, valid, labelOf, render, revision, emittedSections).items == total.items
      invariant BodyFrom(blocks, i, valid, labelOf, render, revision, emittedSections).nextRevision == total.nextRevision
    {
      var piece, next, emittedAfter := EmitBlock(blocks, i, editsByBlock, valid, commentIds, revision, emittedSections);
      BodyAdvance(blocks, i, valid, labelOf, render, revision, emittedSections,
        Step(piece, next, emittedAfter), items, total);
      items := items + piece;
      revision := next;
      emittedSections := emittedAfter;
    }
  }

  // ---------------------------------------------------------------------------
  // Views of the body
  // ---------------------------------------------------------------------------

  function Collect<T>(items: seq<Item>, piece: Item -> seq<T>): seq<T>
  {
    if |items| == 0 then [] else piece(items[0]) + Collect(items[1..], piece)
  }

  lemma {:induction false} CollectAppend<T>(a: seq<Item>, b: seq<Item>, piece: Item -> seq<T>)
    ensures Collect(a + b, piece) == Collect(a, piece) + Collect(b, piece)
  {
    if |a| == 0 {
      assert a + b == b;
    } else {
      assert (a + b)[1..] == a[1..] + b;
      CollectAppend(a[1..], b, piece);
    }
  }

  lemma CollectSingle<T>(x: Item, piece: Item -> seq<T>)
    ensures Collect([x], piece) == piece(x)
  {
    assert [x][1..] == [];
  }

  function LabelPiece(x: Item): seq<string>
  {
    if x.SectionHeading? then [x.text] else []
  }

  function OriginalOf(x: Item): seq<string>
  {
    if x.EditedParagraph? then [OriginalText(x.runs)] else []
  }

  function RevisedOf(x: Item): seq<string>
  {
    if x.EditedParagraph? then [RevisedText(x.runs)] else []
  }

  function RevisionsOf(x: Item): seq<nat>
  {
    if x.EditedParagraph? then Revisions(x.runs) else []
  }

  /** Block `k` has edits after validation. */
  predicate Edited(blocks: seq<Block>, valid: seq<EditOperation>, k: nat)
    requires k < |blocks|
  {
    |EditsFor(valid, blocks[k].id)| > 0
  }

  lemma StepViews(blocks: seq<Block>, k: nat, valid: seq<EditOperation>, labelOf: Labelling, render: Rendering,
                  revision: nat, emitted: set<string>)
    requires k < |blocks|
    ensures var s := BlockStep(blocks, k, valid, labelOf, render, revision, emitted);
      var b := blocks[k];
      var lbl := labelOf(b);
      var r := render(b, EditsFor(valid, b.id), revision);
      && Collect(s.items, LabelPiece) == (if !Edited(blocks, valid, k) || lbl in emitted then [] else [lbl])
      && s.emitted == (if Edited(blocks, valid, k) then emitted + {lbl} else emitted)
      && Collect(s.items, OriginalOf) == (if Edited(blocks, valid, k) then [OriginalText(r.runs)] else [])
      && Collect(s.items, RevisedOf) == (if Edited(blocks, valid, k) then [RevisedText(r.runs)] else [])
      && Collect(s.items, RevisionsOf) == (if Edited(blocks, valid, k) then Revisions(r.runs) else [])
      && s.nextRevision == (if Edited(blocks, valid, k) then r.nextRevision else revision)
  {
    if Edited(blocks, valid, k) {
      var lbl := labelOf(blocks[k]);
      var r := render(blocks[k], EditsFor(valid, blocks[k].id), revision);
      var head := if lbl in emitted then [] else [SectionHeading(lbl)];
      var para := EditedParagraph(r.runs);
      CollectSingle(para, LabelPiece);
      CollectSingle(para, OriginalOf);
      CollectSingle(para, RevisedOf);
      CollectSingle(para, RevisionsOf);
      if lbl !in emitted {
        CollectSingle(SectionHeading(lbl), LabelPiece);
        CollectSingle(SectionHeading(lbl), OriginalOf);
        CollectSingle(SectionHeading(lbl), RevisedOf);
        CollectSingle(SectionHeading(lbl), RevisionsOf);
      }
      CollectAppend(head, [para], LabelPiece);
      CollectAppend(head, [para], OriginalOf);
      CollectAppend(head, [para], RevisedOf);
      CollectAppend(head, [para], RevisionsOf);
    }
  }

  /** A view of the body from block `k` on is the view of block `k`'s step followed by the view of the rest. */
  lemma BodySplit<T>(blocks: seq<Block>, k: nat, valid: seq<EditOperation>, labelOf: Labelling, render: Rendering,
                     revision: nat, emitted: set<string>, piece: Item -> seq<T>)
    requires k < |blocks|
    ensures var s := BlockStep(blocks, k, valid, labelOf, render, revision, emitted);
      var rest := BodyFrom(blocks, k + 1, valid, labelOf, render, s.nextRevision, s.emitted);
      && Collect(BodyFrom(blocks, k, valid, labelOf, render, revision, emitted).items, piece)
         == Collect(s.items, piece) + Collect(rest.items, piece)
      && BodyFrom(blocks, k, valid, labelOf, render, revision, emitted).nextRevision == rest.nextRevision
  {
    var s := BlockStep(blocks, k, valid, labelOf, render, revision, emitted);
    var rest := BodyFrom(blocks, k + 1, valid, labelOf, render, s.nextRevision, s.emitted);
    assert BodyFrom(blocks, k, valid, labelOf, render, revision, emitted) == Body(s.items + rest.items, rest.nextRevision);
    CollectAppend(s.items, rest.items, piece);
  }

  /** The section labels of block `k`'s step, and the emitted set after it. */
  lemma StepLabels(blocks: seq<Block>, k: nat, valid: seq<EditOperation>, labelOf: Labelling, render: Rendering,
                   revision: nat, emitted: set<string>)
    requires k < |blocks|
    ensures var s := BlockStep(blocks, k, valid, labelOf, render, revision, emitted);
      var lbl := labelOf(blocks[k]);
      && Collect(s.items, LabelPiece) == (if !Edited(blocks, valid, k) || lbl in emitted then [] else [lbl])
      && s.emitted == (if Edited(blocks, valid, k) then emitted + {lbl} else emitted)
  {
    StepViews(blocks, k, valid, labelOf, render, revision, emitted);
  }

  /** Block `k`'s step reads as the block's content without insertions, for a rendering that keeps it. */
  lemma StepOriginals(blocks: seq<Block>, k: nat, valid: seq<EditOperation>, labelOf: Labelling, render: Rendering,
                      revision: nat, emitted: set<string>)
    requires k < |blocks|
    requires KeepsOriginal(render)
    ensures Collect(BlockStep(blocks, k, valid, labelOf, render, revision, emitted).items, OriginalOf)
         == (if Edited(blocks, valid, k) then [blocks[k].content] else [])
  {
    StepViews(blocks, k, valid, labelOf, render, revision, emitted);
    if Edited(blocks, valid, k) {
      var r := render(blocks[k], EditsFor(valid, blocks[k].id), revision);
      assert OriginalText(r.runs) == blocks[k].content;
    }
  }

  /** Block `k`'s step reads as the clean merge without deletions, for a rendering that merges cleanly. */
  lemma StepRevised(blocks: seq<Block>, k: nat, valid: seq<EditOperation>, labelOf: Labelling, render: Rendering,
                    revision: nat, emitted: set<string>)
    requires k < |blocks|
    requires MergesCleanly(render)
    ensures Collect(BlockStep(blocks, k, valid, labelOf, render, revision, emitted).items, RevisedOf)
         == (if Edited(blocks, valid, k) then [CleanText(blocks[k].content, EditsFor(valid, blocks[k].id))] else [])
  {
    StepViews(blocks, k, valid, labelOf, render, revision, emitted);
    if Edited(blocks, valid, k) {
      var r := render(blocks[k], EditsFor(valid, blocks[k].id), revision);
      assert RevisedText(r.runs) == CleanText(blocks[k].content, EditsFor(valid, blocks[k].id));
    }
  }

  /** Block `k`'s step numbers its revisions consecutively, for a rendering that does. */
  lemma StepRevisions(blocks: seq<Block>, k: nat, valid: seq<EditOperation>, labelOf: Labelling, render: Rendering,
                      revision: nat, emitted: set<string>)
    requires k < |blocks|
    requires NumbersRevisions(render)
    ensures var s := BlockStep(blocks, k, valid, labelOf, render, revision, emitted);
      Redline.Numbered(Collect(s.items, RevisionsOf), revision, s.nextRevision)
  {
    StepViews(blocks, k, valid, labelOf, render, revision, emitted);
    if Edited(blocks, valid, k) {
      var r := render(blocks[k], EditsFor(valid, blocks[k].id), revision);
      assert Redline.Numbered(Revisions(r.runs), revision, r.nextRevision);
    } else {
      assert Redline.Numbered([], revision, revision);
    }
  }

  /** Some edited block from `k` on has label `l`. */
  ghost predicate LabelledFrom(blocks: seq<Block>, valid: seq<EditOperation>, labelOf: Labelling, k: nat, l: string)
  {
    exists m :: k <= m < |blocks| && Edited(blocks, valid, m) && labelOf(blocks[m]) == l
  }

  /** No label of `ls` is in `emitted`, and none repeats. */
  predicate FreshLabels(ls: seq<string>, emitted: set<string>)
  {
    && (forall i :: 0 <= i < |ls| ==> ls[i] !in emitted)
    && (forall i, j :: 0 <= i < j < |ls| ==> ls[i] != ls[j])
  }

  /** The section headings emitted from block `k` on are none of those already emitted, and none repeats. */
  lemma {:induction false} BodyLabelsFresh(blocks: seq<Block>, k: nat, valid: seq<EditOperation>, labelOf: Labelling,
                                           render: Rendering, revision: nat, emitted: set<string>)
    requires k <= |blocks|
    ensures FreshLabels(Collect(BodyFrom(blocks, k, valid, labelOf, render, revision, emitted).items, LabelPiece), emitted)
    decreases |blocks| - k
  {
    if k < |blocks| {
      var s := BlockStep(blocks, k, valid, labelOf, render, revision, emitted);
      var rest := BodyFrom(blocks, k + 1, valid, labelOf, render, s.nextRevision, s.emitted);
      BodySplit(blocks, k, valid, labelOf, render, revision, emitted, LabelPiece);
      StepLabels(blocks, k, valid, labelOf, render, revision, emitted);
      BodyLabelsFresh(blocks, k + 1, valid, labelOf, render, s.nextRevision, s.emitted);
      FreshAppend(Collect(s.items, LabelPiece), Collect(rest.items, LabelPiece), emitted, s.emitted);
    }
  }

  lemma FreshAppend(head: seq<string>, tail: seq<string>, emitted: set<string>, after: set<string>)
    requires |head| <= 1 && (forall i :: 0 <= i < |head| ==> head[i] !in emitted && head[i] in after)
    requires emitted <= after
    requires FreshLabels(tail, after)
    ensures FreshLabels(head + tail, emitted)
  {
    var ls := head + tail;
    forall i | 0 <= i < |ls| ensures ls[i] !in emitted {
      if i >= |head| { assert ls[i] == tail[i - |head|]; }
    }
    forall i, j | 0 <= i < j < |ls| ensures ls[i] != ls[j] {
      if i >= |head| {
        assert ls[i] == tail[i - |head|] && ls[j] == tail[j - |head|];
      } else {
        assert ls[i] == head[i] && ls[j] == tail[j - |head|];
      }
    }
  }

  /**
   * The section headings emitted from block `k` on are exactly the labels of
   * the edited blocks from `k` on that were not emitted before.
   */
  lemma {:induction false} BodyLabelsCover(blocks: seq<Block>, k: nat, valid: seq<EditOperation>, labelOf: Labelling,
                                           render: Rendering, revision: nat, emitted: set<string>)
    requires k <= |blocks|
    ensures forall l :: l in Collect(BodyFrom(blocks, k, valid, labelOf, render, revision, emitted).items, LabelPiece) <==>
      l !in emitted && LabelledFrom(blocks, valid, labelOf, k, l)
    decreases |blocks| - k
  {
    if k < |blocks| {
      var s := BlockStep(blocks, k, valid, labelOf, render, revision, emitted);
      var rest := BodyFrom(blocks, k + 1, valid, labelOf, render, s.nextRevision, s.emitted);
      BodySplit(blocks, k, valid, labelOf, render, revision, emitted, LabelPiece);
      StepLabels(blocks, k, valid, labelOf, render, revision, emitted);
      BodyLabelsCover(blocks, k + 1, valid, labelOf, render, s.nextRevision, s.emitted);
      CoverAppend(blocks, valid, labelOf, k, Collect(s.items, LabelPiece), Collect(rest.items, LabelPiece), emitted, s.emitted);
    }
  }

  lemma CoverAppend(blocks: seq<Block>, valid: seq<EditOperation>, labelOf: Labelling, k: nat,
                    head: seq<string>, tail: seq<string>, emitted: set<string>, after: set<string>)
    requires k < |blocks|
    requires head == (if !Edited(blocks, valid, k) || labelOf(blocks[k]) in emitted then [] else [labelOf(blocks[k])])
    requires after == (if Edited(blocks, valid, k) then emitted + {labelOf(blocks[k])} else emitted)
    requires forall l :: l in tail <==> l !in after && LabelledFrom(blocks, valid, labelOf, k + 1, l)
    ensures forall l :: l in head + tail <==> l !in emitted && LabelledFrom(blocks, valid, labelOf, k, l)
  {
    forall l ensures l in head + tail <==> l !in emitted && LabelledFrom(blocks, valid, labelOf, k, l) {
      LabelledStep(blocks, valid, labelOf, k, l);
    }
  }

  lemma LabelledStep(blocks: seq<Block>, valid: seq<EditOperation>, labelOf: Labelling, k: nat, l: string)
    requires k < |blocks|
    ensures LabelledFrom(blocks, valid, labelOf, k, l) <==>
      (Edited(blocks, valid, k) && labelOf(blocks[k]) == l) || LabelledFrom(blocks, valid, labelOf, k + 1, l)
  {
    if LabelledFrom(blocks, valid, labelOf, k, l) {
      var m :| k <= m < |blocks| && Edited(blocks, valid, m) && labelOf(blocks[m]) == l;
      if m > k { assert LabelledFrom(blocks, valid, labelOf, k + 1, l); }
    }
    if LabelledFrom(blocks, valid, labelOf, k + 1, l) {
      var m :| k + 1 <= m < |blocks| && Edited(blocks, valid, m) && labelOf(blocks[m]) == l;
      assert LabelledFrom(blocks, valid, labelOf, k, l);
    }
    if Edited(blocks, valid, k) && labelOf(blocks[k]) == l {
      assert LabelledFrom(blocks, valid, labelOf, k, l);
    }
  }

  /** Every rendering numbers its revisions consecutively from the counter it is given. */
  ghost predicate NumbersRevisions(render: Rendering)
  {
    forall b, es, rev {:trigger Revisions(render(b, es, rev).runs)} ::
      Redline.Numbered(Revisions(render(b, es, rev).runs), rev, render(b, es, rev).nextRevision)
  }

  /** Every rendering reads as the block's content when its insertions are left out. */
  ghost predicate KeepsOriginal(render: Rendering)
  {
    forall b, es, rev {:trigger OriginalText(render(b, es, rev).runs)} :: OriginalText(render(b, es, rev).runs) == b.content
  }

  /** Every rendering reads as the clean merge of the block's edits when its deletions are left out. */
  ghost predicate MergesCleanly(render: Rendering)
  {
    forall b, es, rev {:trigger RevisedText(render(b, es, rev).runs)} ::
      RevisedText(render(b, es, rev).runs) == CleanText(b.content, es)
  }

  /** The renderer of `buildRedlineDocx` numbers its revisions and keeps both readings. */
  lemma BlockRendererFaithful(commentIds: map<string, nat>)
    ensures NumbersRevisions(BlockRenderer(commentIds))
    ensures KeepsOriginal(BlockRenderer(commentIds))
    ensures MergesCleanly(BlockRenderer(commentIds))
  {
    var render := BlockRenderer(commentIds);
    forall b, es, rev
      ensures Redline.Numbered(Revisions(render(b, es, rev).runs), rev, render(b, es, rev).nextRevision)
      ensures OriginalText(render(b, es, rev).runs) == b.content
      ensures RevisedText(render(b, es, rev).runs) == CleanText(b.content, es)
    {
      RedlineChanges(b.content, es, rev, commentIds);
      RedlineKeepsOriginal(b.content, es, rev, commentIds);
      RedlineAgreesWithClean(b.content, es, rev, commentIds);
    }
  }

  /** The revision IDs of all edited paragraphs are consecutive from the counter's starting value. */
  lemma {:induction false} BodyRevisions(blocks: seq<Block>, k: nat, valid: seq<EditOperation>, labelOf: Labelling,
                                         render: Rendering, revision: nat, emitted: set<string>)
    requires k <= |blocks|
    requires NumbersRevisions(render)
    ensures var body := BodyFrom(blocks, k, valid, labelOf, render, revision, emitted);
      Redline.Numbered(Collect(body.items, RevisionsOf), revision, body.nextRevision)
    decreases |blocks| - k
  {
    if k < |blocks| {
      var s := BlockStep(blocks, k, valid, labelOf, render, revision, emitted);
      var rest := BodyFrom(blocks, k + 1, valid, labelOf, render, s.nextRevision, s.emitted);
      BodySplit(blocks, k, valid, labelOf, render, revision, emitted, RevisionsOf);
      StepRevisions(blocks, k, valid, labelOf, render, revision, emitted);
      BodyRevisions(blocks, k + 1, valid, labelOf, render, s.nextRevision, s.emitted);
      NumberedAppend(Collect(s.items, RevisionsOf), Collect(rest.items, RevisionsOf), revision, s.nextRevision, rest.nextRevision);
    }
  }

  /** The contents of the edited blocks from `k` on, in document order. */
  function EditedContents(blocks: seq<Block>, k: nat, valid: seq<EditOperation>): seq<string>
    requires k <= |blocks|
    decreases |blocks| - k
  {
    if k == |blocks| then []
    else (if Edited(blocks, valid, k) then [blocks[k].content] else []) + EditedContents(blocks, k + 1, valid)
  }

  /** The clean-merge results of the edited blocks from `k` on, in document order. */
  function EditedCleanTexts(blocks: seq<Block>, k: nat, valid: seq<EditOperation>): seq<string>
    requires k <= |blocks|
    decreases |blocks| - k
  {
    if k == |blocks| then []
    else
      var here := if Edited(blocks, valid, k) then [CleanText(blocks[k].content, EditsFor(valid, blocks[k].id))] else [];
      here + EditedCleanTexts(blocks, k + 1, valid)
  }

  /** One edited paragraph per edited block, in document order, each reading as the block's content without insertions. */
  lemma {:induction false} BodyOriginals(blocks: seq<Block>, k: nat, valid: seq<EditOperation>, labelOf: Labelling,
                                         render: Rendering, revision: nat, emitted: set<string>)
    requires k <= |blocks|
    requires KeepsOriginal(render)
    ensures Collect(BodyFrom(blocks, k, valid, labelOf, render, revision, emitted).items, OriginalOf) == EditedContents(blocks, k, valid)
    decreases |blocks| - k
  {
    if k < |blocks| {
      var s := BlockStep(blocks, k, valid, labelOf, render, revision, emitted);
      var rest := BodyFrom(blocks, k + 1, valid, labelOf, render, s.nextRevision, s.emitted);
      BodySplit(blocks, k, valid, labelOf, render, revision, emitted, OriginalOf);
      StepOriginals(blocks, k, valid, labelOf, render, revision, emitted);
      BodyOriginals(blocks, k + 1, valid, labelOf, render, s.nextRevision, s.emitted);
    }
  }

  /** One edited paragraph per edited block, in document order, each reading as the block's clean merge without deletions. */
  lemma {:induction false} BodyRevised(blocks: seq<Block>, k: nat, valid: seq<EditOperation>, labelOf: Labelling,
                                       render: Rendering, revision: nat, emitted: set<string>)
    requires k <= |blocks|
    requires MergesCleanly(render)
    ensures Collect(BodyFrom(blocks, k, valid, labelOf, render, revision, emitted).items, RevisedOf) == EditedCleanTexts(blocks, k, valid)
    decreases |blocks| - k
  {
    if k < |blocks| {
      var s := BlockStep(blocks, k, valid, labelOf, render, revision, emitted);
      var rest := BodyFrom(blocks, k + 1, valid, labelOf, render, s.nextRevision, s.emitted);
      BodySplit(blocks, k, valid, labelOf, render, revision, emitted, RevisedOf);
      StepRevised(blocks, k, valid, labelOf, render, revision, emitted);
      BodyRevised(blocks, k + 1, valid, labelOf, render, s.nextRevision, s.emitted);
    }
  }

  // ---------------------------------------------------------------------------
  // buildRedlineDocx
  // ---------------------------------------------------------------------------

  /** The modelled content of the redline document. */
  datatype RedlineOutput = RedlineOutput(
    author: string,
    badge: string,
    badgeColor: string,
    comments: seq<Comment>,
    body: seq<Item>,
    nextSteps: seq<string>)

  /** `${i + 1}. ${step}` for each next step. */
  method NumberSteps(steps: seq<string>) returns (lines: seq<string>)
    ensures |lines| == |steps|
    ensures forall i :: 0 <= i < |steps| ==> lines[i] == NatToString(i + 1) + ". " + steps[i]
  {
    lines := [];
    for i := 0 to |steps|
      invariant |lines| == i
      invariant forall j :: 0 <= j < i ==> lines[j] == NatToString(j + 1) + ". " + steps[j]
    {
      lines := lines + [NatToString(i + 1) + ". " + steps[i]];
    }
  }

  function NumberedSteps(steps: seq<string>): (r: seq<string>)
    ensures |r| == |steps|
  {
    seq(|steps|, i requires 0 <= i < |steps| => NatToString(i + 1) + ". " + steps[i])
  }

  /** What `buildRedlineDocx` assembles from the parsed document, the analysis, the selected edits and the options. */
  function RedlineDocument(doc: ParsedDocument, analysis: AnalysisResult, selectedEdits: seq<EditOperation>,
                           options: ExportOptions): RedlineOutput
  {
    RedlineFrom(doc, analysis, KnownEdits(BlockIds(doc.blocks), selectedEdits), options)
  }

  /** The redline document for the validated edits `valid`. */
  function RedlineFrom(doc: ParsedDocument, analysis: AnalysisResult, valid: seq<EditOperation>,
                       options: ExportOptions): RedlineOutput
  {
    var author := AuthorOr(options.author);
    var commentIds := IdMapFrom(valid, 1, map[]);
    RedlineOutput(
      author,
      ClassificationLabel(analysis.classification),
      ClassificationColor(analysis.classification),
      CommentsFrom(valid, 1, author),
      BodyFrom(doc.blocks, 0, valid, SectionLabels(doc.blocks), BlockRenderer(commentIds), 1, {}).items,
      NumberedSteps(analysis.nextSteps))
  }

  /** `buildRedlineDocx`, up to the Word objects. */
  method BuildRedlineDocx(doc: ParsedDocument, analysis: AnalysisResult, selectedEdits: seq<EditOperation>,
                          options: ExportOptions)
    returns (out: RedlineOutput)
    ensures out == RedlineDocument(doc, analysis, selectedEdits, options)
  {
    var author := AuthorOr(options.author);
    var blockIds := BlockIds(doc.blocks);
    var validSelectedEdits := KnownEdits(blockIds, selectedEdits);
    var editsByBlock := GroupEdits(validSelectedEdits);
    var commentIdMap, comments := AssignCommentIds(validSelectedEdits, author);
    var body := RenderBody(doc.blocks, editsByBlock, validSelectedEdits, commentIdMap);
    var nextSteps := NumberSteps(analysis.nextSteps);
    out := RedlineOutput(author, ClassificationLabel(analysis.classification),
      ClassificationColor(analysis.classification), comments, body, nextSteps);
  }

  /** An edit naming a block the document does not have changes nothing in the output. */
  lemma UnknownEditIgnored(doc: ParsedDocument, analysis: AnalysisResult, a: seq<EditOperation>, u: EditOperation,
                           b: seq<EditOperation>, options: ExportOptions)
    requires u.blockId !in BlockIds(doc.blocks)
    ensures RedlineDocument(doc, analysis, a + [u] + b, options) == RedlineDocument(doc, analysis, a + b, options)
  {
    var ids := BlockIds(doc.blocks);
    KnownEditsAppend(ids, a + [u], b);
    KnownEditsAppend(ids, a, [u]);
    KnownEditsAppend(ids, a, b);
    assert KnownEdits(ids, [u]) == [];
    assert KnownEdits(ids, a + [u] + b) == KnownEdits(ids, a + b);
  }

  /**
   * In the redline document each section label is emitted once, and a label
   * appears exactly when an edited block has it as its section label.
   */
  lemma RedlineSectionsOnce(doc: ParsedDocument, analysis: AnalysisResult, selectedEdits: seq<EditOperation>,
                            options: ExportOptions)
    ensures var ls := Collect(RedlineDocument(doc, analysis, selectedEdits, options).body, LabelPiece);
      var valid := KnownEdits(BlockIds(doc.blocks), selectedEdits);
      && (forall i, j :: 0 <= i < j < |ls| ==> ls[i] != ls[j])
      && (forall l :: l in ls <==> LabelledFrom(doc.blocks, valid, SectionLabels(doc.blocks), 0, l))
  {
    var valid := KnownEdits(BlockIds(doc.blocks), selectedEdits);
    var labelOf, render := SectionLabels(doc.blocks), BlockRenderer(IdMapFrom(valid, 1, map[]));
    assert RedlineDocument(doc, analysis, selectedEdits, options).body
        == BodyFrom(doc.blocks, 0, valid, labelOf, render, 1, {}).items;
    BodyLabelsFresh(doc.blocks, 0, valid, labelOf, render, 1, {});
    BodyLabelsCover(doc.blocks, 0, valid, labelOf, render, 1, {});
  }

  /** The revision IDs used in the redline document are 1, 2, ..., n, each once. */
  lemma RedlineRevisionIds(doc: ParsedDocument, analysis: AnalysisResult, selectedEdits: seq<EditOperation>,
                           options: ExportOptions)
    ensures exists n :: Redline.Numbered(Collect(RedlineDocument(doc, analysis, selectedEdits, options).body, RevisionsOf), 1, n)
  {
    var valid := KnownEdits(BlockIds(doc.blocks), selectedEdits);
    var commentIds := IdMapFrom(valid, 1, map[]);
    var labelOf, render := SectionLabels(doc.blocks), BlockRenderer(commentIds);
    BlockRendererFaithful(commentIds);
    BodyRevisions(doc.blocks, 0, valid, labelOf, render, 1, {});
    var n := BodyFrom(doc.blocks, 0, valid, labelOf, render, 1, {}).nextRevision;
    assert Redline.Numbered(Collect(RedlineDocument(doc, analysis, selectedEdits, options).body, RevisionsOf), 1, n);
  }

  /**
   * The redline document has one edited paragraph per edited block, in
   * document order, reading as the block's content without insertions and as
   * its clean merge without deletions.
   */
  lemma RedlineTexts(doc: ParsedDocument, analysis: AnalysisResult, selectedEdits: seq<EditOperation>,
                     options: ExportOptions)
    ensures var body := RedlineDocument(doc, analysis, selectedEdits, options).body;
      var valid := KnownEdits(BlockIds(doc.blocks), selectedEdits);
      && Collect(body, OriginalOf) == EditedContents(doc.blocks, 0, valid)
      && Collect(body, RevisedOf) == EditedCleanTexts(doc.blocks, 0, valid)
  {
    var valid := KnownEdits(BlockIds(doc.blocks), selectedEdits);
    var commentIds := IdMapFrom(valid, 1, map[]);
    var labelOf, render := SectionLabels(doc.blocks), BlockRenderer(commentIds);
    BlockRendererFaithful(commentIds);
    BodyOriginals(doc.blocks, 0, valid, labelOf, render, 1, {});
    BodyRevised(doc.blocks, 0, valid, labelOf, render, 1, {});
    assert RedlineDocument(doc, analysis, selectedEdits, options).body
        == BodyFrom(doc.blocks, 0, valid, labelOf, render, 1, {}).items;
  }

  // ---------------------------------------------------------------------------
  // buildCleanDocx
  // ---------------------------------------------------------------------------

  /** A paragraph of the revised text: a heading with its Word heading level, or body text. */
  datatype CleanItem = CleanHeading(text: string, level: nat) | CleanParagraph(text: string)

  /** `headingMap[block.level || 2] || HEADING_2`: levels 1 to 3 are kept, anything else becomes 2. */
  function CleanHeadingLevel(b: Block): (l: nat)
    ensures 1 <= l <= 3
    ensures 1 <= LevelOr(b, 2) <= 3 ==> l == LevelOr(b, 2)
  {
    var l := LevelOr(b, 2);
    if 1 <= l <= 3 then l else 2
  }

  /** The final text of a block: its clean merge when it has edits, its content otherwise. */
  function FinalText(b: Block, edits: seq<EditOperation>): string
  {
    if |edits| > 0 then CleanText(b.content, edits) else b.content
  }

  /** A paragraph of the revised text: not blank, and a heading at level 1 to 3. */
  predicate Shown(x: CleanItem)
  {
    !AllWhitespace(x.text) && (x.CleanHeading? ==> 1 <= x.level <= 3)
  }

  /**
   * The paragraph block `b` contributes: none when its final text is blank
   * (`!text.trim()`, see `TrimEmpty`), else that text, as a heading exactly
   * when the block is one.
   */
  function CleanItemOf(b: Block, edits: seq<EditOperation>): (r: Option<CleanItem>)
    ensures r.None? <==> AllWhitespace(FinalText(b, edits))
    ensures r.Some? ==> Shown(r.value) && r.value.text == FinalText(b, edits)
    ensures r.Some? ==> (r.value.CleanHeading? <==> b.kind == Heading)
  {
    var text := FinalText(b, edits);
    if AllWhitespace(text) then None
    else if b.kind == Heading then Some(CleanHeading(text, CleanHeadingLevel(b)))
    else Some(CleanParagraph(text))
  }

  /**
   * The revised text from block `k` on: at most one paragraph per block, each
   * of them shown.
   */
  function CleanBodyFrom(blocks: seq<Block>, k: nat, valid: seq<EditOperation>): (r: seq<CleanItem>)
    requires k <= |blocks|
    ensures |r| <= |blocks| - k
    ensures forall i :: 0 <= i < |r| ==> Shown(r[i])
    decreases |blocks| - k
  {
    if k == |blocks| then []
    else
      var c := CleanItemOf(blocks[k], EditsFor(valid, blocks[k].id));
      (if c.Some? then [c.value] else []) + CleanBodyFrom(blocks, k + 1, valid)
  }

  lemma CleanAdvance(blocks: seq<Block>, k: nat, valid: seq<EditOperation>, done: seq<CleanItem>, total: seq<CleanItem>)
    requires k < |blocks|
    requires done + CleanBodyFrom(blocks, k, valid) == total
    ensures var c := CleanItemOf(blocks[k], EditsFor(valid, blocks[k].id));
      && (c.None? ==> done + CleanBodyFrom(blocks, k + 1, valid) == total)
      && (c.Some? ==> (done + [c.value]) + CleanBodyFrom(blocks, k + 1, valid) == total)
  {
    var c := CleanItemOf(blocks[k], EditsFor(valid, blocks[k].id));
    if c.Some? {
      var rest := CleanBodyFrom(blocks, k + 1, valid);
      assert (done + [c.value]) + rest == done + ([c.value] + rest);
    } else {
      assert [] + CleanBodyFrom(blocks, k + 1, valid) == CleanBodyFrom(blocks, k + 1, valid);
    }
  }

  /** The body of the block loop of `buildCleanDocx`. */
  method CleanBlock(block: Block, blockEdits: seq<EditOperation>) returns (item: Option<CleanItem>)
    ensures item == CleanItemOf(block, blockEdits)
  {
    var text;
    if |blockEdits| > 0 {
      text := ApplyEditsCleanly(block.content, blockEdits);
    } else {
      text := block.content;
    }
    TrimEmpty(text);
    if Trim(text) == "" {
      return None;
    }
    if block.kind == Heading {
      var level := LevelOr(block, 2);
      if !(1 <= level <= 3) {
        level := 2;
      }
      return Some(CleanHeading(text, level));
    }
    return Some(CleanParagraph(text));
  }

  /** The block loop of `buildCleanDocx`: every block, in order. */
  method RenderCleanBody(blocks: seq<Block>, editsByBlock: map<string, seq<EditOperation>>, ghost valid: seq<EditOperation>)
    returns (items: seq<CleanItem>)
    requires Grouped(editsByBlock, valid)
    ensures items == CleanBodyFrom(blocks, 0, valid)
  {
    items := [];
    for i := 0 to |blocks|
      invariant items + CleanBodyFrom(blocks, i, valid) == CleanBodyFrom(blocks, 0, valid)
    {
      var block := blocks[i];
      GroupOfGrouped(editsByBlock, valid, block.id);
      var item := CleanBlock(block, GroupOf(editsByBlock, block.id));
      CleanAdvance(blocks, i, valid, items, CleanBodyFrom(blocks, 0, valid));
      if item.Some? {
        items := items + [item.value];
      }
    }
  }

  /**
   * A block with edits and a non-blank result shows in the revised text
   * exactly what the redline's edited paragraph reads without its deletions.
   */
  lemma CleanMatchesRedline(b: Block, edits: seq<EditOperation>, revision: nat, commentIds: map<string, nat>)
    requires |edits| > 0 && !AllWhitespace(CleanText(b.content, edits))
    ensures CleanItemOf(b, edits).Some?
    ensures CleanItemOf(b, edits).value.text == RevisedText(RenderBlock(b.content, edits, revision, commentIds).runs)
  {
    RedlineAgreesWithClean(b.content, edits, revision, commentIds);
  }

  /** `${editCount} edit${editCount !== 1 ? 's' : ''} applied`. */
  function EditCountLabel(n: nat): (r: string)
    ensures n == 1 ==> r == "1 edit applied"
    ensures n != 1 ==> r == NatToString(n) + " edits applied"
  {
    NatToString(n) + " edit" + (if n != 1 then "s" else "") + " applied"
  }

  /** `parsedDocument.filename || options.filename || 'Document'`. */
  function DocName(filename: string, optionFilename: string): (r: string)
    ensures filename != "" ==> r == filename
    ensures filename == "" && optionFilename != "" ==> r == optionFilename
    ensures filename == "" && optionFilename == "" ==> r == "Document"
  {
    if filename != "" then filename else if optionFilename != "" then optionFilename else "Document"
  }

  /** The modelled content of the clean document. */
  datatype CleanOutput = CleanOutput(
    author: string,
    docName: string,
    badge: string,
    badgeColor: string,
    editCount: string,
    body: seq<CleanItem>)

  function CleanDocument(doc: ParsedDocument, analysis: AnalysisResult, selectedEdits: seq<EditOperation>,
                         options: ExportOptions): CleanOutput
  {
    var valid := KnownEdits(BlockIds(doc.blocks), selectedEdits);
    CleanOutput(
      AuthorOr(options.author),
      DocName(doc.filename, options.filename),
      ClassificationLabel(analysis.classification),
      ClassificationColor(analysis.classification),
      EditCountLabel(|valid|),
      CleanBodyFrom(doc.blocks, 0, valid))
  }

  /** `buildCleanDocx`, up to the Word objects. */
  method BuildCleanDocx(doc: ParsedDocument, analysis: AnalysisResult, selectedEdits: seq<EditOperation>,
                        options: ExportOptions)
    returns (out: CleanOutput)
    ensures out == CleanDocument(doc, analysis, selectedEdits, options)
  {
    var blockIds := BlockIds(doc.blocks);
    var validEdits := KnownEdits(blockIds, selectedEdits);
    var editsByBlock := GroupEdits(validEdits);
    var docName := DocName(doc.filename, options.filename);
    var body := RenderCleanBody(doc.blocks, editsByBlock, validEdits);
    out := CleanOutput(AuthorOr(options.author), docName, ClassificationLabel(analysis.classification),
      ClassificationColor(analysis.classification), EditCountLabel(|validEdits|), body);
  }
}
