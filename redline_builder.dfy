/**
 * The loops of `applyEditsToBlock` and `applyEditsCleanly`
 * (app/lib/redline-builder.ts), each proved to compute the functions of
 * module `Redline`.
 */
module RedlineBuilder {
  import opened Wrappers
  import opened Text
  import opened Types
  import opened Redline

  /** The overlap loop of `applyEditsToBlock` and `applyEditsCleanly`. */
  method DropOverlapping(valid: seq<Span>) returns (kept: seq<Span>)
    ensures kept == KeepFrom(valid, 0)
  {
    kept := [];
    var lastEnd: nat := 0;
    for i := 0 to |valid|
      invariant kept + KeepFrom(valid[i..], lastEnd) == KeepFrom(valid, 0)
    {
      assert valid[i..][1..] == valid[i + 1..];
      assert KeepFrom(valid[i..], lastEnd)
          == if valid[i].start >= lastEnd then [valid[i]] + KeepFrom(valid[i + 1..], valid[i].end)
             else KeepFrom(valid[i + 1..], lastEnd);
      if valid[i].start >= lastEnd {
        kept := kept + [valid[i]];
        lastEnd := valid[i].end;
      }
    }
  }

  /** One turn of the cursor loop: the runs still to come are `piece` and then the rest. */
  lemma RangeRunsAdvance(content: string, spans: seq<Span>, i: nat, cursor: nat, revision: nat, commentIds: map<string, nat>,
                          piece: seq<Run>, next: nat, done: seq<Run>, total: Rendered)
    requires i < |spans|
    requires Rendered(piece, next) == SpanRuns(content, spans[i], cursor, revision, commentIds)
    requires done + RangeRuns(content, spans[i..], cursor, revision, commentIds).runs == total.runs
    requires RangeRuns(content, spans[i..], cursor, revision, commentIds).nextRevision == total.nextRevision
    ensures (done + piece) + RangeRuns(content, spans[i + 1..], spans[i].end, next, commentIds).runs == total.runs
    ensures RangeRuns(content, spans[i + 1..], spans[i].end, next, commentIds).nextRevision == total.nextRevision
  {
    RangeRunsStep(content, spans, i, cursor, revision, commentIds);
    var rest := RangeRuns(content, spans[i + 1..], spans[i].end, next, commentIds).runs;
    assert (done + piece) + rest == done + (piece + rest);
  }

  lemma RangeRunsStep(content: string, spans: seq<Span>, i: nat, cursor: nat, revision: nat, commentIds: map<string, nat>)
    requires i < |spans|
    ensures
      var h := SpanRuns(content, spans[i], cursor, revision, commentIds);
      var t := RangeRuns(content, spans[i + 1..], spans[i].end, h.nextRevision, commentIds);
      RangeRuns(content, spans[i..], cursor, revision, commentIds) == Rendered(h.runs + t.runs, t.nextRevision)
  {
    assert spans[i..][0] == spans[i] && spans[i..][1..] == spans[i + 1..];
  }

  /** After the last range edit the remaining text, if any, is the one run still to come. */
  lemma RangeRunsFinish(content: string, spans: seq<Span>, cursor: nat, revision: nat, commentIds: map<string, nat>,
                        done: seq<Run>, total: Rendered)
    requires done + RangeRuns(content, spans[|spans|..], cursor, revision, commentIds).runs == total.runs
    requires RangeRuns(content, spans[|spans|..], cursor, revision, commentIds).nextRevision == total.nextRevision
    ensures cursor < |content| ==> Rendered(done + [Unchanged(content[cursor..])], revision) == total
    ensures cursor >= |content| ==> Rendered(done, revision) == total
  {
    assert spans[|spans|..] == [];
  }

  lemma InsertRunsStep(inserts: seq<EditOperation>, i: nat, revision: nat, commentIds: map<string, nat>)
    requires i < |inserts|
    ensures !Truthy(inserts[i].newText) ==>
      InsertRuns(inserts[i..], revision, commentIds) == InsertRuns(inserts[i + 1..], revision, commentIds)
    ensures Truthy(inserts[i].newText) ==>
      var c := CommentOf(inserts[i].id, commentIds);
      var t := InsertRuns(inserts[i + 1..], revision + 1, commentIds);
      InsertRuns(inserts[i..], revision, commentIds)
        == Rendered(Opening(c) + [Inserted(" " + inserts[i].newText.value, revision)] + Closing(c) + t.runs, t.nextRevision)
  {
    assert inserts[i..][0] == inserts[i] && inserts[i..][1..] == inserts[i + 1..];
  }

  /** The body of the cursor loop of `applyEditsToBlock`: the children one range edit pushes. */
  method EmitRangeEdit(content: string, edit: Span, cursor: nat, revision: nat, commentIds: map<string, nat>)
    returns (piece: seq<Run>, nextRevision: nat)
    ensures Rendered(piece, nextRevision) == SpanRuns(content, edit, cursor, revision, commentIds)
  {
    var commentId := CommentOf(edit.edit.id, commentIds);
    piece := [];
    nextRevision := revision;
    if cursor < edit.start {
      piece := piece + [Unchanged(Slice(content, cursor, edit.start))];
    }
    if commentId.Some? {
      piece := piece + [CommentStart(commentId.value)];
    }
    assert piece == Before(content, edit, cursor) + Opening(commentId);
    var deletedText := Slice(content, edit.start, edit.end);
    piece := piece + [Deleted(deletedText, nextRevision)];
    nextRevision := nextRevision + 1;
    if edit.edit.kind == ReplaceRange && Truthy(edit.edit.newText) {
      piece := piece + [Inserted(edit.edit.newText.value, nextRevision)];
      nextRevision := nextRevision + 1;
    }
    assert piece == Before(content, edit, cursor) + Opening(commentId) + [Deleted(deletedText, revision)] + Replacement(edit, revision);
    if commentId.Some? {
      piece := piece + [CommentEnd(commentId.value), CommentReference(commentId.value)];
    }
  }

  /** The cursor loop of `applyEditsToBlock`, with the remaining text after the last edit. */
  method RenderRanges(content: string, spans: seq<Span>, revision: nat, commentIds: map<string, nat>)
    returns (runs: seq<Run>, nextRevision: nat)
    ensures Rendered(runs, nextRevision) == RangeRuns(content, spans, 0, revision, commentIds)
  {
    ghost var ranged := RangeRuns(content, spans, 0, revision, commentIds);
    runs := [];
    nextRevision := revision;
    var cursor: nat := 0;
    for i := 0 to |spans|
      invariant runs + RangeRuns(content, spans[i..], cursor, nextRevision, commentIds).runs == ranged.runs
      invariant RangeRuns(content, spans[i..], cursor, nextRevision, commentIds).nextRevision == ranged.nextRevision
    {
      var edit := spans[i];
      var piece, next := EmitRangeEdit(content, edit, cursor, nextRevision, commentIds);
      RangeRunsAdvance(content, spans, i, cursor, nextRevision, commentIds, piece, next, runs, ranged);
      runs := runs + piece;
      nextRevision := next;
      cursor := edit.end;
    }
    RangeRunsFinish(content, spans, cursor, nextRevision, commentIds, runs, ranged);
    if cursor < |content| {
      runs := runs + [Unchanged(content[cursor..])];
    }
  }

  /** The `insert_after` loop of `applyEditsToBlock`, appending to `runs`. */
  method AppendInsertRuns(prefix: seq<Run>, inserts: seq<EditOperation>, revision: nat, commentIds: map<string, nat>)
    returns (runs: seq<Run>, nextRevision: nat)
    ensures runs == prefix + InsertRuns(inserts, revision, commentIds).runs
    ensures nextRevision == InsertRuns(inserts, revision, commentIds).nextRevision
  {
    ghost var appended := InsertRuns(inserts, revision, commentIds);
    runs := prefix;
    nextRevision := revision;
    for i := 0 to |inserts|
      invariant runs + InsertRuns(inserts[i..], nextRevision, commentIds).runs == prefix + appended.runs
      invariant InsertRuns(inserts[i..], nextRevision, commentIds).nextRevision == appended.nextRevision
    {
      var edit := inserts[i];
      InsertRunsStep(inserts, i, nextRevision, commentIds);
      if Truthy(edit.newText) {
        var commentId := CommentOf(edit.id, commentIds);
        var piece := [];
        if commentId.Some? {
          piece := piece + [CommentStart(commentId.value)];
        }
        piece := piece + [Inserted(" " + edit.newText.value, nextRevision)];
        nextRevision := nextRevision + 1;
        if commentId.Some? {
          piece := piece + [CommentEnd(commentId.value), CommentReference(commentId.value)];
        }
        assert piece == Opening(commentId) + [Inserted(" " + edit.newText.value, nextRevision - 1)] + Closing(commentId);
        ghost var t := InsertRuns(inserts[i + 1..], nextRevision, commentIds);
        assert runs + piece + t.runs == runs + (piece + t.runs);
        runs := runs + piece;
      }
    }
  }

  /** `applyEditsToBlock`, with the revision counter passed in and returned. */
  method ApplyEditsToBlock(content: string, edits: seq<EditOperation>, revision: nat, commentIds: map<string, nat>)
    returns (runs: seq<Run>, nextRevision: nat)
    ensures Rendered(runs, nextRevision) == RenderBlock(content, edits, revision, commentIds)
  {
    var spans := DropOverlapping(ValidSpans(edits, |content|));
    runs, nextRevision := RenderRanges(content, spans, revision, commentIds);
    runs, nextRevision := AppendInsertRuns(runs, InsertAfterEdits(edits), nextRevision, commentIds);
    if |runs| == 0 {
      runs := [Unchanged(content)];
    }
  }

  /** One turn of the cursor loop of `applyEditsCleanly`. */
  lemma CleanRangeAdvance(content: string, spans: seq<Span>, i: nat, cursor: nat, done: string, total: string)
    requires i < |spans|
    requires done + CleanRange(content, spans[i..], cursor) == total
    ensures Replaces(spans[i].edit) ==>
      done + Slice(content, cursor, spans[i].start) + spans[i].edit.newText.value
        + CleanRange(content, spans[i + 1..], spans[i].end) == total
    ensures !Replaces(spans[i].edit) ==>
      done + Slice(content, cursor, spans[i].start) + CleanRange(content, spans[i + 1..], spans[i].end) == total
  {
    assert spans[i..][0] == spans[i] && spans[i..][1..] == spans[i + 1..];
    var replacement := if Replaces(spans[i].edit) then spans[i].edit.newText.value else "";
    var rest := CleanRange(content, spans[i + 1..], spans[i].end);
    assert CleanRange(content, spans[i..], cursor) == Slice(content, cursor, spans[i].start) + replacement + rest;
    if Replaces(spans[i].edit) {
      assert done + Slice(content, cursor, spans[i].start) + replacement + rest
          == done + (Slice(content, cursor, spans[i].start) + replacement + rest);
    } else {
      assert replacement == "";
      assert done + Slice(content, cursor, spans[i].start) + rest
          == done + (Slice(content, cursor, spans[i].start) + replacement + rest);
    }
  }

  /** After the last range edit the rest of the block follows unchanged. */
  lemma CleanRangeFinish(content: string, spans: seq<Span>, cursor: nat, done: string, total: string)
    requires done + CleanRange(content, spans[|spans|..], cursor) == total
    ensures done + Slice(content, cursor, |content|) == total
  {
    assert spans[|spans|..] == [];
  }

  lemma CleanInsertsStep(inserts: seq<EditOperation>, i: nat)
    requires i < |inserts|
    ensures CleanInserts(inserts[i..])
         == (if Truthy(inserts[i].newText) then " " + inserts[i].newText.value else "") + CleanInserts(inserts[i + 1..])
  {
    assert inserts[i..][0] == inserts[i] && inserts[i..][1..] == inserts[i + 1..];
  }

  /** The cursor loop of `applyEditsCleanly`, with the remaining text after the last edit. */
  method MergeRanges(content: string, spans: seq<Span>) returns (result: string)
    ensures result == CleanRange(content, spans, 0)
  {
    result := "";
    var cursor: nat := 0;
    for i := 0 to |spans|
      invariant result + CleanRange(content, spans[i..], cursor) == CleanRange(content, spans, 0)
    {
      var edit := spans[i];
      CleanRangeAdvance(content, spans, i, cursor, result, CleanRange(content, spans, 0));
      result := result + Slice(content, cursor, edit.start);
      if edit.edit.kind == ReplaceRange && Truthy(edit.edit.newText) {
        result := result + edit.edit.newText.value;
      }
      cursor := edit.end;
    }
    CleanRangeFinish(content, spans, cursor, result, CleanRange(content, spans, 0));
    result := result + Slice(content, cursor, |content|);
  }

  /** The `insert_after` loop of `applyEditsCleanly`, appending to `prefix`. */
  method AppendInserts(prefix: string, inserts: seq<EditOperation>) returns (result: string)
    ensures result == prefix + CleanInserts(inserts)
  {
    result := prefix;
    for i := 0 to |inserts|
      invariant result + CleanInserts(inserts[i..]) == prefix + CleanInserts(inserts)
    {
      CleanInsertsStep(inserts, i);
      if Truthy(inserts[i].newText) {
        ghost var r0 := result;
        result := result + " " + inserts[i].newText.value;
        assert result + CleanInserts(inserts[i + 1..]) == r0 + (" " + inserts[i].newText.value + CleanInserts(inserts[i + 1..]));
      }
    }
  }

  /** `applyEditsCleanly`. */
  method ApplyEditsCleanly(content: string, edits: seq<EditOperation>) returns (result: string)
    ensures result == CleanText(content, edits)
  {
    var spans := DropOverlapping(ValidSpans(edits, |content|));
    result := MergeRanges(content, spans);
    result := AppendInserts(result, InsertAfterEdits(edits));
  }
}
