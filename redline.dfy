/**
 * The edit-operation engine of app/lib/redline-builder.ts: resolving a block's
 * range edits (filter, clamp, stable sort, first-wins overlap removal), the
 * tracked-change rendering of `applyEditsToBlock` and the clean merge of
 * `applyEditsCleanly`.
 */
module Redline {
  import opened Wrappers
  import opened Text
  import opened Types

  // ---------------------------------------------------------------------------
  // Resolution
  // ---------------------------------------------------------------------------

  /** A `replace_range` or `delete_range` edit whose offsets are both numbers. */
  predicate IsRangeEdit(e: EditOperation)
  {
    (e.kind == ReplaceRange || e.kind == DeleteRange) && e.startChar.Some? && e.endChar.Some?
  }

  /** The edits that enter range processing, in input order. */
  function RangeEdits(edits: seq<EditOperation>): (r: seq<EditOperation>)
    ensures forall e :: e in r <==> e in edits && IsRangeEdit(e)
  {
    if |edits| == 0 then []
    else (if IsRangeEdit(edits[0]) then [edits[0]] else []) + RangeEdits(edits[1..])
  }

  /** The `insert_after` edits, in input order. */
  function InsertAfterEdits(edits: seq<EditOperation>): (r: seq<EditOperation>)
    ensures forall e :: e in r <==> e in edits && e.kind == InsertAfter
  {
    if |edits| == 0 then []
    else (if edits[0].kind == InsertAfter then [edits[0]] else []) + InsertAfterEdits(edits[1..])
  }

  /** A range edit with its offsets clamped to the block: `{...e, startChar, endChar}`. */
  datatype Span = Span(edit: EditOperation, start: nat, end: nat)

  /** `Math.max(0, Math.min(x, len))`. */
  function Clamp(x: int, len: nat): (r: nat)
    ensures r <= len
    ensures 0 <= x <= len ==> r == x
    ensures x < 0 ==> r == 0
    ensures x > len ==> r == len
  {
    Max(0, Min(x, len))
  }

  function ClampSpan(e: EditOperation, len: nat): Span
    requires IsRangeEdit(e)
  {
    Span(e, Clamp(e.startChar.value, len), Clamp(e.endChar.value, len))
  }

  /** The clamping `map` over the range edits. */
  function ClampAll(edits: seq<EditOperation>, len: nat): (r: seq<Span>)
    requires forall e :: e in edits ==> IsRangeEdit(e)
    ensures |r| == |edits|
    ensures forall i :: 0 <= i < |r| ==> r[i] == ClampSpan(edits[i], len)
  {
    seq(|edits|, i requires 0 <= i < |edits| => ClampSpan(edits[i], len))
  }

  /** The `filter` that drops spans that are empty or reversed after clamping. */
  function NonEmpty(spans: seq<Span>): (r: seq<Span>)
    ensures forall sp :: sp in r <==> sp in spans && sp.start < sp.end
  {
    if |spans| == 0 then []
    else (if spans[0].start < spans[0].end then [spans[0]] else []) + NonEmpty(spans[1..])
  }

  predicate SortedByStart(s: seq<Span>)
  {
    forall i, j :: 0 <= i < j < |s| ==> s[i].start <= s[j].start
  }

  /** Inserts `x` before the first span that does not start before it. */
  function InsertByStart(x: Span, s: seq<Span>): (r: seq<Span>)
    ensures |r| == |s| + 1
  {
    if |s| == 0 || x.start <= s[0].start then [x] + s
    else [s[0]] + InsertByStart(x, s[1..])
  }

  lemma {:induction false} InsertByStartPermutes(x: Span, s: seq<Span>)
    ensures multiset(InsertByStart(x, s)) == multiset(s) + multiset{x}
  {
    if |s| > 0 && x.start > s[0].start {
      InsertByStartPermutes(x, s[1..]);
      assert s == [s[0]] + s[1..];
    }
  }

  /**
   * `sort((a, b) => a.startChar - b.startChar)`: `Array.prototype.sort` is
   * stable, so this is a stable insertion sort on `start`.
   */
  function SortByStart(s: seq<Span>): (r: seq<Span>)
    ensures |r| == |s|
  {
    if |s| == 0 then [] else InsertByStart(s[0], SortByStart(s[1..]))
  }

  /** The sort is a permutation. */
  lemma {:induction false} SortByStartPermutes(s: seq<Span>)
    ensures multiset(SortByStart(s)) == multiset(s)
  {
    if |s| > 0 {
      SortByStartPermutes(s[1..]);
      InsertByStartPermutes(s[0], SortByStart(s[1..]));
      assert s == [s[0]] + s[1..];
    }
  }

  lemma {:induction false} InsertByStartBound(x: Span, s: seq<Span>, b: nat)
    requires b <= x.start && forall k :: 0 <= k < |s| ==> b <= s[k].start
    ensures forall k :: 0 <= k < |InsertByStart(x, s)| ==> b <= InsertByStart(x, s)[k].start
  {
    if |s| > 0 && x.start > s[0].start {
      InsertByStartBound(x, s[1..], b);
    }
  }

  lemma {:induction false} InsertByStartSorted(x: Span, s: seq<Span>)
    requires SortedByStart(s)
    ensures SortedByStart(InsertByStart(x, s))
  {
    if |s| > 0 && x.start > s[0].start {
      var t := s[1..];
      assert SortedByStart(t);
      InsertByStartSorted(x, t);
      InsertByStartBound(x, t, s[0].start);
      var r := InsertByStart(x, t);
      var full := [s[0]] + r;
      forall i, j | 0 <= i < j < |full| ensures full[i].start <= full[j].start {
        assert full[j] == r[j - 1];
        if i > 0 {
          assert full[i] == r[i - 1];
        }
      }
    }
  }

  /** The sort puts the spans in ascending order of `start`. */
  lemma {:induction false} SortByStartSorted(s: seq<Span>)
    ensures SortedByStart(SortByStart(s))
  {
    if |s| > 0 {
      SortByStartSorted(s[1..]);
      InsertByStartSorted(s[0], SortByStart(s[1..]));
    }
  }

  /** The spans that start at `v`, in order. */
  function StartingAt(s: seq<Span>, v: nat): seq<Span>
  {
    if |s| == 0 then []
    else (if s[0].start == v then [s[0]] else []) + StartingAt(s[1..], v)
  }

  lemma {:induction false} InsertByStartStable(x: Span, s: seq<Span>, v: nat)
    ensures StartingAt(InsertByStart(x, s), v)
         == (if x.start == v then [x] else []) + StartingAt(s, v)
  {
    if |s| == 0 || x.start <= s[0].start {
      assert ([x] + s)[1..] == s;
    } else {
      assert ([s[0]] + InsertByStart(x, s[1..]))[1..] == InsertByStart(x, s[1..]);
      InsertByStartStable(x, s[1..], v);
    }
  }

  /** The sort is stable: spans with equal starts keep their input order. */
  lemma {:induction false} SortByStartStable(s: seq<Span>, v: nat)
    ensures StartingAt(SortByStart(s), v) == StartingAt(s, v)
  {
    if |s| > 0 {
      SortByStartStable(s[1..], v);
      InsertByStartStable(s[0], SortByStart(s[1..]), v);
    }
  }

  /** Sorting spans that are already in order changes nothing. */
  lemma {:induction false} SortSorted(s: seq<Span>)
    requires SortedByStart(s)
    ensures SortByStart(s) == s
  {
    if |s| > 0 {
      SortSorted(s[1..]);
    }
  }

  /** `validEdits`: range edits clamped, non-empty, sorted by start. */
  function ValidSpans(edits: seq<EditOperation>, len: nat): (r: seq<Span>)
    ensures forall i :: 0 <= i < |r| ==> r[i].start < r[i].end
  {
    var c := NonEmpty(ClampAll(RangeEdits(edits), len));
    var r := SortByStart(c);
    SortByStartPermutes(c);
    assert forall i :: 0 <= i < |r| ==> r[i] in multiset(c);
    r
  }

  /** The overlap loop from `lastEnd` on: a span is kept iff it starts at or after the last kept end. */
  function KeepFrom(spans: seq<Span>, lastEnd: nat): seq<Span>
  {
    if |spans| == 0 then []
    else if spans[0].start >= lastEnd then [spans[0]] + KeepFrom(spans[1..], spans[0].end)
    else KeepFrom(spans[1..], lastEnd)
  }

  /**
   * The kept spans are spans of the input that start at or after `lastEnd`,
   * and each ends at or before the start of every later kept span.
   */
  lemma {:induction false} KeepFromFacts(spans: seq<Span>, lastEnd: nat)
    requires forall i :: 0 <= i < |spans| ==> spans[i].start <= spans[i].end
    ensures forall sp :: sp in KeepFrom(spans, lastEnd) ==> sp in spans && sp.start >= lastEnd
    ensures forall i, j :: 0 <= i < j < |KeepFrom(spans, lastEnd)| ==>
      KeepFrom(spans, lastEnd)[i].end <= KeepFrom(spans, lastEnd)[j].start
  {
    if |spans| > 0 {
      if spans[0].start >= lastEnd {
        KeepFromFacts(spans[1..], spans[0].end);
        var kept := KeepFrom(spans, lastEnd);
        var rest := KeepFrom(spans[1..], spans[0].end);
        assert kept == [spans[0]] + rest;
        forall i, j | 0 <= i < j < |kept| ensures kept[i].end <= kept[j].start {
          if i == 0 {
            assert kept[j] == rest[j - 1] && rest[j - 1] in rest;
          } else {
            assert kept[i] == rest[i - 1] && kept[j] == rest[j - 1];
          }
        }
      } else {
        KeepFromFacts(spans[1..], lastEnd);
      }
    }
  }

  /** `nonOverlapping`: the range edits of a block that are applied, in order. */
  function Resolve(edits: seq<EditOperation>, len: nat): seq<Span>
  {
    KeepFrom(ValidSpans(edits, len), 0)
  }

  /** The edits of `nonOverlapping` as objects carrying their clamped offsets. */
  function ToEdit(sp: Span): EditOperation
  {
    sp.edit.(startChar := Some(sp.start), endChar := Some(sp.end))
  }

  function ResolveEdits(edits: seq<EditOperation>, len: nat): (r: seq<EditOperation>)
    ensures |r| == |Resolve(edits, len)|
  {
    ToEdits(Resolve(edits, len))
  }

  /** Spans inside a block of length `len`, non-empty, each starting at or after the previous end. */
  predicate Disjoint(spans: seq<Span>, len: nat)
  {
    && (forall i :: 0 <= i < |spans| ==> spans[i].start < spans[i].end <= len)
    && (forall i, j :: 0 <= i < j < |spans| ==> spans[i].end <= spans[j].start)
  }

  lemma ValidSpansFacts(edits: seq<EditOperation>, len: nat)
    ensures forall sp :: sp in ValidSpans(edits, len) ==>
      && IsRangeEdit(sp.edit) && sp.edit in edits
      && sp == ClampSpan(sp.edit, len)
      && sp.start < sp.end <= len
  {
    var r := RangeEdits(edits);
    var c := ClampAll(r, len);
    forall sp | sp in ValidSpans(edits, len)
      ensures IsRangeEdit(sp.edit) && sp.edit in edits && sp == ClampSpan(sp.edit, len) && sp.start < sp.end <= len
    {
      SortByStartPermutes(NonEmpty(c));
      assert sp in multiset(ValidSpans(edits, len));
      assert sp in NonEmpty(c);
      var i :| 0 <= i < |c| && c[i] == sp;
      assert r[i] in r;
    }
  }

  /**
   * Every applied range edit is a `replace_range`/`delete_range` edit of the
   * input with numeric offsets, carries its offsets clamped to `[0, len]`,
   * and the applied edits are non-empty, in bounds, ascending and
   * non-overlapping.
   */
  lemma ResolveWellFormed(edits: seq<EditOperation>, len: nat)
    ensures Disjoint(Resolve(edits, len), len)
    ensures forall sp :: sp in Resolve(edits, len) ==>
      IsRangeEdit(sp.edit) && sp.edit in edits && sp == ClampSpan(sp.edit, len)
    ensures SortedByStart(Resolve(edits, len))
  {
    ValidSpansFacts(edits, len);
    KeepFromFacts(ValidSpans(edits, len), 0);
    var k := Resolve(edits, len);
    assert forall i :: 0 <= i < |k| ==> k[i] in k;
    assert forall i :: 0 <= i < |k| ==> k[i].start < k[i].end <= len;
  }

  /**
   * First wins: a valid span that is not applied starts inside an applied
   * span (the sort puts every applied span that could block it earlier).
   */
  lemma {:induction false} DroppedOverlapsKept(spans: seq<Span>, lastEnd: nat)
    requires SortedByStart(spans)
    requires forall i :: 0 <= i < |spans| ==> spans[i].start <= spans[i].end
    ensures forall sp :: sp in spans ==>
      || sp in KeepFrom(spans, lastEnd)
      || sp.start < lastEnd
      || exists k :: k in KeepFrom(spans, lastEnd) && k.start <= sp.start < k.end
  {
    if |spans| > 0 {
      var x := spans[0];
      assert SortedByStart(spans[1..]);
      KeepFromFacts(spans, lastEnd);
      if x.start >= lastEnd {
        DroppedOverlapsKept(spans[1..], x.end);
        forall sp | sp in spans[1..] && sp.start < x.end
          ensures x in KeepFrom(spans, lastEnd) && x.start <= sp.start < x.end
        {
          var j :| 0 <= j < |spans[1..]| && spans[1..][j] == sp;
          assert spans[j + 1] == sp;
        }
      } else {
        DroppedOverlapsKept(spans[1..], lastEnd);
      }
    }
  }

  /** At the top level (`lastEnd = 0`): every sorted valid edit is applied or starts inside an applied one. */
  lemma FirstWins(edits: seq<EditOperation>, len: nat)
    ensures forall sp :: sp in ValidSpans(edits, len) ==>
      sp in Resolve(edits, len) ||
      exists k :: k in Resolve(edits, len) && k.start <= sp.start < k.end
  {
    SortByStartSorted(NonEmpty(ClampAll(RangeEdits(edits), len)));
    DroppedOverlapsKept(ValidSpans(edits, len), 0);
  }

  /** Among valid edits that start at the same offset, the sorted order is the input order. */
  lemma TiesKeepInputOrder(edits: seq<EditOperation>, len: nat, v: nat)
    ensures StartingAt(ValidSpans(edits, len), v) == StartingAt(NonEmpty(ClampAll(RangeEdits(edits), len)), v)
  {
    SortByStartStable(NonEmpty(ClampAll(RangeEdits(edits), len)), v);
  }

  lemma {:induction false} KeepDisjoint(spans: seq<Span>, lastEnd: nat, len: nat)
    requires AppliedFrom(spans, lastEnd, len)
    ensures KeepFrom(spans, lastEnd) == spans
  {
    if |spans| > 0 {
      KeepDisjoint(spans[1..], spans[0].end, len);
    }
  }

  lemma {:induction false} NonEmptyOfNonEmpty(spans: seq<Span>)
    requires forall i :: 0 <= i < |spans| ==> spans[i].start < spans[i].end
    ensures NonEmpty(spans) == spans
  {
    if |spans| > 0 {
      NonEmptyOfNonEmpty(spans[1..]);
    }
  }

  lemma {:induction false} RangeEditsOfRangeEdits(edits: seq<EditOperation>)
    requires forall i :: 0 <= i < |edits| ==> IsRangeEdit(edits[i])
    ensures RangeEdits(edits) == edits
  {
    if |edits| > 0 {
      RangeEditsOfRangeEdits(edits[1..]);
    }
  }

  /** The spans of a resolution, re-read as edits and clamped again. */
  function Reclamp(spans: seq<Span>): (r: seq<Span>)
    ensures |r| == |spans|
  {
    seq(|spans|, i requires 0 <= i < |spans| => Span(ToEdit(spans[i]), spans[i].start, spans[i].end))
  }

  function ToEdits(spans: seq<Span>): (r: seq<EditOperation>)
    ensures |r| == |spans|
  {
    seq(|spans|, i requires 0 <= i < |spans| => ToEdit(spans[i]))
  }

  lemma ClampResolved(spans: seq<Span>, len: nat)
    requires Disjoint(spans, len)
    requires forall i :: 0 <= i < |spans| ==> IsRangeEdit(spans[i].edit)
    ensures RangeEdits(ToEdits(spans)) == ToEdits(spans)
    ensures ClampAll(RangeEdits(ToEdits(spans)), len) == Reclamp(spans)
  {
    RangeEditsOfRangeEdits(ToEdits(spans));
  }

  lemma ReclampKept(spans: seq<Span>, len: nat)
    requires Disjoint(spans, len) && SortedByStart(spans)
    ensures SortByStart(NonEmpty(Reclamp(spans))) == Reclamp(spans)
    ensures KeepFrom(Reclamp(spans), 0) == Reclamp(spans)
  {
    var c := Reclamp(spans);
    assert forall i :: 0 <= i < |c| ==> c[i].start == spans[i].start && c[i].end == spans[i].end;
    NonEmptyOfNonEmpty(c);
    assert SortedByStart(c);
    SortSorted(c);
    assert Disjoint(c, len);
    DisjointApplied(c, 0, len);
    KeepDisjoint(c, 0, len);
  }

  lemma ResolvedRangeEdits(edits: seq<EditOperation>, len: nat)
    ensures forall i :: 0 <= i < |Resolve(edits, len)| ==> IsRangeEdit(Resolve(edits, len)[i].edit)
  {
    var spans := Resolve(edits, len);
    ResolveWellFormed(edits, len);
    assert forall i :: 0 <= i < |spans| ==> spans[i] in spans;
  }

  lemma ToEditsReclamp(spans: seq<Span>)
    ensures ToEdits(Reclamp(spans)) == ToEdits(spans)
  {
  }

  /** Resolving an already resolved edit set yields the same edits unchanged. */
  lemma ResolveIdempotent(edits: seq<EditOperation>, len: nat)
    ensures ResolveEdits(ResolveEdits(edits, len), len) == ResolveEdits(edits, len)
  {
    var spans := Resolve(edits, len);
    var c := Reclamp(spans);
    calc {
      ResolveEdits(ResolveEdits(edits, len), len);
      ToEdits(KeepFrom(ValidSpans(ToEdits(spans), len), 0));
      { ResolveWellFormed(edits, len);
        ResolvedRangeEdits(edits, len);
        ClampResolved(spans, len); }
      ToEdits(KeepFrom(SortByStart(NonEmpty(c)), 0));
      { ResolveWellFormed(edits, len);
        ReclampKept(spans, len); }
      ToEdits(c);
      { ToEditsReclamp(spans); }
      ToEdits(spans);
    }
  }

  /** Two overlapping edits `[0, 10)` and `[5, 15)` of a long block: only the first is applied. */
  lemma OverlapExample(a: EditOperation, b: EditOperation, len: nat)
    requires a.kind == DeleteRange && a.startChar == Some(0) && a.endChar == Some(10)
    requires b.kind == ReplaceRange && b.startChar == Some(5) && b.endChar == Some(15)
    requires len >= 15
    ensures Resolve([a, b], len) == [Span(a, 0, 10)]
  {
    assert RangeEdits([a, b]) == [a, b] by {
      RangeEditsOfRangeEdits([a, b]);
    }
    var c := ClampAll([a, b], len);
    assert |c| == 2 && c[0] == Span(a, 0, 10) && c[1] == Span(b, 5, 15);
    assert NonEmpty(c) == c by {
      NonEmptyOfNonEmpty(c);
    }
    assert SortByStart(c) == c by {
      SortSorted(c);
    }
    assert c[1..] == [Span(b, 5, 15)];
    assert KeepFrom(c[1..], 10) == [];
    assert KeepFrom(c, 0) == [c[0]] + KeepFrom(c[1..], 10);
  }

  // ---------------------------------------------------------------------------
  // Tracked-change rendering
  // ---------------------------------------------------------------------------

  /**
   * A child of a redlined paragraph: plain text, a tracked deletion or
   * insertion with its revision ID, or a comment anchor. Author, date and
   * formatting of the runs are not modelled.
   */
  datatype Run =
    | Unchanged(text: string)
    | Deleted(text: string, revision: nat)
    | Inserted(text: string, revision: nat)
    | CommentStart(commentId: nat)
    | CommentEnd(commentId: nat)
    | CommentReference(commentId: nat)

  /** The runs of a block and the value of the revision counter afterwards. */
  datatype Rendered = Rendered(runs: seq<Run>, nextRevision: nat)

  /** `commentIdMap.get(id)`. */
  function CommentOf(id: string, commentIds: map<string, nat>): Option<nat>
  {
    if id in commentIds then Some(commentIds[id]) else None
  }

  function Opening(c: Option<nat>): seq<Run>
  {
    if c.Some? then [CommentStart(c.value)] else []
  }

  function Closing(c: Option<nat>): seq<Run>
  {
    if c.Some? then [CommentEnd(c.value), CommentReference(c.value)] else []
  }

  /** `edit.type === 'replace_range' && edit.newText`: the edit inserts replacement text. */
  predicate Replaces(e: EditOperation)
  {
    e.kind == ReplaceRange && Truthy(e.newText)
  }

  /** The runs one applied range edit contributes, with the text before it since `cursor`. */
  function SpanRuns(content: string, sp: Span, cursor: nat, revision: nat, commentIds: map<string, nat>): Rendered
  {
    var before := if cursor < sp.start then [Unchanged(Slice(content, cursor, sp.start))] else [];
    var c := CommentOf(sp.edit.id, commentIds);
    var inserted := if Replaces(sp.edit) then [Inserted(sp.edit.newText.value, revision + 1)] else [];
    Rendered(
      before + Opening(c) + [Deleted(Slice(content, sp.start, sp.end), revision)] + inserted + Closing(c),
      revision + 1 + |inserted|)
  }

  /** The range part of `applyEditsToBlock`, with the remaining text after the last edit. */
  function RangeRuns(content: string, spans: seq<Span>, cursor: nat, revision: nat, commentIds: map<string, nat>): Rendered
  {
    if |spans| == 0 then
      Rendered(if cursor < |content| then [Unchanged(content[cursor..])] else [], revision)
    else
      var h := SpanRuns(content, spans[0], cursor, revision, commentIds);
      var t := RangeRuns(content, spans[1..], spans[0].end, h.nextRevision, commentIds);
      Rendered(h.runs + t.runs, t.nextRevision)
  }

  /** The `insert_after` part: one inserted run `' ' + newText` per edit with non-empty text. */
  function InsertRuns(inserts: seq<EditOperation>, revision: nat, commentIds: map<string, nat>): Rendered
  {
    if |inserts| == 0 then Rendered([], revision)
    else if !Truthy(inserts[0].newText) then InsertRuns(inserts[1..], revision, commentIds)
    else
      var c := CommentOf(inserts[0].id, commentIds);
      var t := InsertRuns(inserts[1..], revision + 1, commentIds);
      Rendered(Opening(c) + [Inserted(" " + inserts[0].newText.value, revision)] + Closing(c) + t.runs, t.nextRevision)
  }

  /** `applyEditsToBlock`: the runs of one block and the advanced revision counter. */
  function RenderBlock(content: string, edits: seq<EditOperation>, revision: nat, commentIds: map<string, nat>): Rendered
  {
    var r := RangeRuns(content, Resolve(edits, |content|), 0, revision, commentIds);
    var a := InsertRuns(InsertAfterEdits(edits), r.nextRevision, commentIds);
    var runs := r.runs + a.runs;
    Rendered(if |runs| == 0 then [Unchanged(content)] else runs, a.nextRevision)
  }

  /** What a run contributes to the text before the changes. */
  function OriginalPiece(r: Run): string
  {
    match r
    case Unchanged(t) => t
    case Deleted(t, _) => t
    case _ => ""
  }

  /** What a run contributes to the text after the changes. */
  function RevisedPiece(r: Run): string
  {
    match r
    case Unchanged(t) => t
    case Inserted(t, _) => t
    case _ => ""
  }

  /** A tracked change without its revision ID. */
  datatype Change = Deletion(text: string) | Insertion(text: string)

  function ChangePiece(r: Run): seq<Change>
  {
    match r
    case Deleted(t, _) => [Deletion(t)]
    case Inserted(t, _) => [Insertion(t)]
    case _ => []
  }

  function RevisionPiece(r: Run): seq<nat>
  {
    match r
    case Deleted(_, id) => [id]
    case Inserted(_, id) => [id]
    case _ => []
  }

  /** The concatenation of what each run contributes to a view. */
  function Flat<T>(runs: seq<Run>, piece: Run -> seq<T>): seq<T>
  {
    if |runs| == 0 then [] else piece(runs[0]) + Flat(runs[1..], piece)
  }

  /** The text before the changes: unchanged and deleted runs. */
  function OriginalText(runs: seq<Run>): string
  {
    Flat(runs, OriginalPiece)
  }

  /** The text after the changes: unchanged and inserted runs. */
  function RevisedText(runs: seq<Run>): string
  {
    Flat(runs, RevisedPiece)
  }

  /** The tracked changes of a run sequence, in order. */
  function Changes(runs: seq<Run>): seq<Change>
  {
    Flat(runs, ChangePiece)
  }

  /** The revision IDs of a run sequence, in order. */
  function Revisions(runs: seq<Run>): seq<nat>
  {
    Flat(runs, RevisionPiece)
  }

  lemma {:induction false} FlatAppend<T>(a: seq<Run>, b: seq<Run>, piece: Run -> seq<T>)
    ensures Flat(a + b, piece) == Flat(a, piece) + Flat(b, piece)
  {
    if |a| == 0 {
      assert a + b == b;
    } else {
      assert (a + b)[1..] == a[1..] + b;
      FlatAppend(a[1..], b, piece);
    }
  }

  lemma FlatSingle<T>(r: Run, piece: Run -> seq<T>)
    ensures Flat([r], piece) == piece(r)
  {
    assert [r][1..] == [];
  }

  /** A view in which comment anchors contribute nothing. */
  ghost predicate IgnoresAnchors<T>(piece: Run -> seq<T>)
  {
    forall c: nat :: piece(CommentStart(c)) == [] && piece(CommentEnd(c)) == [] && piece(CommentReference(c)) == []
  }

  lemma AnchorsFlat<T>(c: Option<nat>, piece: Run -> seq<T>)
    requires IgnoresAnchors(piece)
    ensures Flat(Opening(c), piece) == [] && Flat(Closing(c), piece) == []
  {
    if c.Some? {
      FlatSingle(CommentStart(c.value), piece);
      FlatSingle(CommentEnd(c.value), piece);
      FlatSingle(CommentReference(c.value), piece);
      assert Closing(c) == [CommentEnd(c.value)] + [CommentReference(c.value)];
      FlatAppend([CommentEnd(c.value)], [CommentReference(c.value)], piece);
    }
  }

  /** Any anchor-blind view of one applied range edit's runs. */
  lemma SpanFlat<T>(content: string, sp: Span, cursor: nat, revision: nat, commentIds: map<string, nat>, piece: Run -> seq<T>)
    requires IgnoresAnchors(piece)
    ensures
      var before := if cursor < sp.start then [Unchanged(Slice(content, cursor, sp.start))] else [];
      var inserted := if Replaces(sp.edit) then [Inserted(sp.edit.newText.value, revision + 1)] else [];
      Flat(SpanRuns(content, sp, cursor, revision, commentIds).runs, piece)
        == Flat(before, piece) + piece(Deleted(Slice(content, sp.start, sp.end), revision)) + Flat(inserted, piece)
  {
    var c := CommentOf(sp.edit.id, commentIds);
    var before := if cursor < sp.start then [Unchanged(Slice(content, cursor, sp.start))] else [];
    var del := [Deleted(Slice(content, sp.start, sp.end), revision)];
    var inserted := if Replaces(sp.edit) then [Inserted(sp.edit.newText.value, revision + 1)] else [];
    AnchorsFlat(c, piece);
    FlatSingle(del[0], piece);
    FlatAppend(before, Opening(c), piece);
    FlatAppend(before + Opening(c), del, piece);
    FlatAppend(before + Opening(c) + del, inserted, piece);
    FlatAppend(before + Opening(c) + del + inserted, Closing(c), piece);
  }

  function Before(content: string, sp: Span, cursor: nat): seq<Run>
  {
    if cursor < sp.start then [Unchanged(Slice(content, cursor, sp.start))] else []
  }

  function Replacement(sp: Span, revision: nat): seq<Run>
  {
    if Replaces(sp.edit) then [Inserted(sp.edit.newText.value, revision + 1)] else []
  }

  lemma SpanOriginal(content: string, sp: Span, cursor: nat, revision: nat, commentIds: map<string, nat>)
    ensures OriginalText(SpanRuns(content, sp, cursor, revision, commentIds).runs)
         == (if cursor < sp.start then Slice(content, cursor, sp.start) else "") + Slice(content, sp.start, sp.end)
  {
    SpanFlat(content, sp, cursor, revision, commentIds, OriginalPiece);
    if cursor < sp.start { FlatSingle(Before(content, sp, cursor)[0], OriginalPiece); }
    if Replaces(sp.edit) { FlatSingle(Replacement(sp, revision)[0], OriginalPiece); }
  }

  lemma SpanRevised(content: string, sp: Span, cursor: nat, revision: nat, commentIds: map<string, nat>)
    ensures RevisedText(SpanRuns(content, sp, cursor, revision, commentIds).runs)
         == (if cursor < sp.start then Slice(content, cursor, sp.start) else "")
          + (if Replaces(sp.edit) then sp.edit.newText.value else "")
  {
    SpanFlat(content, sp, cursor, revision, commentIds, RevisedPiece);
    if cursor < sp.start { FlatSingle(Before(content, sp, cursor)[0], RevisedPiece); }
    if Replaces(sp.edit) { FlatSingle(Replacement(sp, revision)[0], RevisedPiece); }
  }

  lemma SpanChanges(content: string, sp: Span, cursor: nat, revision: nat, commentIds: map<string, nat>)
    ensures Changes(SpanRuns(content, sp, cursor, revision, commentIds).runs)
         == [Deletion(Slice(content, sp.start, sp.end))] + (if Replaces(sp.edit) then [Insertion(sp.edit.newText.value)] else [])
  {
    SpanFlat(content, sp, cursor, revision, commentIds, ChangePiece);
    if cursor < sp.start { FlatSingle(Before(content, sp, cursor)[0], ChangePiece); }
    if Replaces(sp.edit) { FlatSingle(Replacement(sp, revision)[0], ChangePiece); }
  }

  lemma SpanRevisions(content: string, sp: Span, cursor: nat, revision: nat, commentIds: map<string, nat>)
    ensures Revisions(SpanRuns(content, sp, cursor, revision, commentIds).runs)
         == [revision] + (if Replaces(sp.edit) then [revision + 1] else [])
    ensures SpanRuns(content, sp, cursor, revision, commentIds).nextRevision
         == revision + 1 + (if Replaces(sp.edit) then 1 else 0)
  {
    SpanFlat(content, sp, cursor, revision, commentIds, RevisionPiece);
    if cursor < sp.start { FlatSingle(Before(content, sp, cursor)[0], RevisionPiece); }
    if Replaces(sp.edit) { FlatSingle(Replacement(sp, revision)[0], RevisionPiece); }
  }

  // ---------------------------------------------------------------------------
  // Clean merge
  // ---------------------------------------------------------------------------

  /** The range part of `applyEditsCleanly`, from `cursor` on. */
  function CleanRange(content: string, spans: seq<Span>, cursor: nat): string
  {
    if |spans| == 0 then Slice(content, cursor, |content|)
    else
      Slice(content, cursor, spans[0].start)
      + (if Replaces(spans[0].edit) then spans[0].edit.newText.value else "")
      + CleanRange(content, spans[1..], spans[0].end)
  }

  /** The `insert_after` part of `applyEditsCleanly`. */
  function CleanInserts(inserts: seq<EditOperation>): string
  {
    if |inserts| == 0 then ""
    else (if Truthy(inserts[0].newText) then " " + inserts[0].newText.value else "") + CleanInserts(inserts[1..])
  }

  /** `applyEditsCleanly`: the text of a block after its edits. */
  function CleanText(content: string, edits: seq<EditOperation>): string
  {
    CleanRange(content, Resolve(edits, |content|), 0) + CleanInserts(InsertAfterEdits(edits))
  }

  // ---------------------------------------------------------------------------
  // What the renderings mean
  // ---------------------------------------------------------------------------

  /** The views of a single run. */
  lemma SingleViews(r: Run)
    ensures OriginalText([r]) == OriginalPiece(r) && RevisedText([r]) == RevisedPiece(r)
    ensures Changes([r]) == ChangePiece(r) && Revisions([r]) == RevisionPiece(r)
  {
    FlatSingle(r, OriginalPiece);
    FlatSingle(r, RevisedPiece);
    FlatSingle(r, ChangePiece);
    FlatSingle(r, RevisionPiece);
  }

  lemma InsertFlat<T>(e: EditOperation, revision: nat, commentIds: map<string, nat>, piece: Run -> seq<T>)
    requires Truthy(e.newText) && IgnoresAnchors(piece)
    ensures
      var c := CommentOf(e.id, commentIds);
      Flat(Opening(c) + [Inserted(" " + e.newText.value, revision)] + Closing(c), piece)
        == piece(Inserted(" " + e.newText.value, revision))
  {
    var c := CommentOf(e.id, commentIds);
    var ins := [Inserted(" " + e.newText.value, revision)];
    AnchorsFlat(c, piece);
    FlatSingle(ins[0], piece);
    FlatAppend(Opening(c), ins, piece);
    FlatAppend(Opening(c) + ins, Closing(c), piece);
  }

  /** One `insert_after` edit with text, seen through every view. */
  lemma InsertViews(e: EditOperation, revision: nat, commentIds: map<string, nat>)
    requires Truthy(e.newText)
    ensures
      var runs := Opening(CommentOf(e.id, commentIds)) + [Inserted(" " + e.newText.value, revision)] + Closing(CommentOf(e.id, commentIds));
      && OriginalText(runs) == ""
      && RevisedText(runs) == " " + e.newText.value
      && Changes(runs) == [Insertion(" " + e.newText.value)]
      && Revisions(runs) == [revision]
  {
    InsertFlat(e, revision, commentIds, OriginalPiece);
    InsertFlat(e, revision, commentIds, RevisedPiece);
    InsertFlat(e, revision, commentIds, ChangePiece);
    InsertFlat(e, revision, commentIds, RevisionPiece);
  }

  lemma {:induction false} RevisedRangeRuns(content: string, spans: seq<Span>, cursor: nat, revision: nat, commentIds: map<string, nat>)
    ensures RevisedText(RangeRuns(content, spans, cursor, revision, commentIds).runs) == CleanRange(content, spans, cursor)
  {
    if |spans| == 0 {
      if cursor < |content| {
        SingleViews(Unchanged(content[cursor..]));
      }
    } else {
      var h := SpanRuns(content, spans[0], cursor, revision, commentIds);
      var t := RangeRuns(content, spans[1..], spans[0].end, h.nextRevision, commentIds);
      RevisedRangeRuns(content, spans[1..], spans[0].end, h.nextRevision, commentIds);
      FlatAppend(h.runs, t.runs, RevisedPiece);
      SpanRevised(content, spans[0], cursor, revision, commentIds);
    }
  }

  lemma {:induction false} InsertRunsViews(inserts: seq<EditOperation>, revision: nat, commentIds: map<string, nat>)
    ensures RevisedText(InsertRuns(inserts, revision, commentIds).runs) == CleanInserts(inserts)
    ensures OriginalText(InsertRuns(inserts, revision, commentIds).runs) == ""
    ensures Changes(InsertRuns(inserts, revision, commentIds).runs) == InsertChanges(inserts)
    ensures Numbered(Revisions(InsertRuns(inserts, revision, commentIds).runs),
      revision, InsertRuns(inserts, revision, commentIds).nextRevision)
  {
    if |inserts| > 0 {
      if !Truthy(inserts[0].newText) {
        InsertRunsViews(inserts[1..], revision, commentIds);
      } else {
        var e := inserts[0];
        var c := CommentOf(e.id, commentIds);
        var t := InsertRuns(inserts[1..], revision + 1, commentIds);
        InsertRunsViews(inserts[1..], revision + 1, commentIds);
        var head := Opening(c) + [Inserted(" " + e.newText.value, revision)] + Closing(c);
        InsertViews(e, revision, commentIds);
        FlatAppend(head, t.runs, OriginalPiece);
        FlatAppend(head, t.runs, RevisedPiece);
        FlatAppend(head, t.runs, ChangePiece);
        FlatAppend(head, t.runs, RevisionPiece);
      }
    }
  }

  /** Nothing but an empty rendering has no runs. */
  lemma EmptyRendering(content: string, spans: seq<Span>, cursor: nat, revision: nat, commentIds: map<string, nat>)
    requires RangeRuns(content, spans, cursor, revision, commentIds).runs == []
    ensures spans == [] && cursor >= |content|
  {
  }

  lemma {:induction false} NoInsertRuns(inserts: seq<EditOperation>, revision: nat, commentIds: map<string, nat>)
    requires InsertRuns(inserts, revision, commentIds).runs == []
    ensures CleanInserts(inserts) == ""
  {
    if |inserts| > 0 {
      NoInsertRuns(inserts[1..], revision, commentIds);
    }
  }

  /**
   * The unchanged and inserted runs of a redlined block spell exactly the
   * clean text of the same block and edits.
   */
  lemma RedlineAgreesWithClean(content: string, edits: seq<EditOperation>, revision: nat, commentIds: map<string, nat>)
    ensures RevisedText(RenderBlock(content, edits, revision, commentIds).runs) == CleanText(content, edits)
  {
    var spans := Resolve(edits, |content|);
    var r := RangeRuns(content, spans, 0, revision, commentIds);
    var a := InsertRuns(InsertAfterEdits(edits), r.nextRevision, commentIds);
    RevisedRangeRuns(content, spans, 0, revision, commentIds);
    InsertRunsViews(InsertAfterEdits(edits), r.nextRevision, commentIds);
    FlatAppend(r.runs, a.runs, RevisedPiece);
    if |r.runs + a.runs| == 0 {
      EmptyRendering(content, spans, 0, revision, commentIds);
      NoInsertRuns(InsertAfterEdits(edits), r.nextRevision, commentIds);
      SingleViews(Unchanged(content));
    }
  }

  /** Spans in order from `from` on, non-empty, inside `[0, len]`, none overlapping the next. */
  predicate AppliedFrom(spans: seq<Span>, from: nat, len: nat)
  {
    |spans| == 0 || (from <= spans[0].start < spans[0].end <= len && AppliedFrom(spans[1..], spans[0].end, len))
  }

  lemma {:induction false} DisjointApplied(spans: seq<Span>, from: nat, len: nat)
    requires Disjoint(spans, len) && (|spans| > 0 ==> from <= spans[0].start)
    ensures AppliedFrom(spans, from, len)
  {
    if |spans| > 0 {
      assert Disjoint(spans[1..], len);
      DisjointApplied(spans[1..], spans[0].end, len);
    }
  }

  lemma {:induction false} OriginalRangeRuns(content: string, spans: seq<Span>, cursor: nat, revision: nat, commentIds: map<string, nat>)
    requires AppliedFrom(spans, cursor, |content|) && cursor <= |content|
    ensures OriginalText(RangeRuns(content, spans, cursor, revision, commentIds).runs) == content[cursor..]
  {
    if |spans| == 0 {
      if cursor < |content| {
        SingleViews(Unchanged(content[cursor..]));
      }
    } else {
      var sp := spans[0];
      var h := SpanRuns(content, sp, cursor, revision, commentIds);
      var t := RangeRuns(content, spans[1..], sp.end, h.nextRevision, commentIds);
      assert RangeRuns(content, spans, cursor, revision, commentIds).runs == h.runs + t.runs;
      calc {
        OriginalText(h.runs + t.runs);
        { FlatAppend(h.runs, t.runs, OriginalPiece); }
        OriginalText(h.runs) + OriginalText(t.runs);
        { SpanOriginal(content, sp, cursor, revision, commentIds);
          OriginalRangeRuns(content, spans[1..], sp.end, h.nextRevision, commentIds); }
        content[cursor..sp.start] + content[sp.start..sp.end] + content[sp.end..];
        content[cursor..];
      }
    }
  }

  /** The unchanged and deleted runs of a redlined block spell exactly its original content. */
  lemma RedlineKeepsOriginal(content: string, edits: seq<EditOperation>, revision: nat, commentIds: map<string, nat>)
    ensures OriginalText(RenderBlock(content, edits, revision, commentIds).runs) == content
  {
    var spans := Resolve(edits, |content|);
    ResolveWellFormed(edits, |content|);
    DisjointApplied(spans, 0, |content|);
    var r := RangeRuns(content, spans, 0, revision, commentIds);
    var a := InsertRuns(InsertAfterEdits(edits), r.nextRevision, commentIds);
    OriginalRangeRuns(content, spans, 0, revision, commentIds);
    InsertRunsViews(InsertAfterEdits(edits), r.nextRevision, commentIds);
    FlatAppend(r.runs, a.runs, OriginalPiece);
    if |r.runs + a.runs| == 0 {
      SingleViews(Unchanged(content));
    }
  }

  /**
   * With no applied range edit and no `insert_after` text, the redline is one
   * unchanged run of the whole content, no revision ID is used, and the clean
   * text is the content.
   */
  lemma NothingApplied(content: string, edits: seq<EditOperation>, revision: nat, commentIds: map<string, nat>)
    requires Resolve(edits, |content|) == []
    requires forall e :: e in InsertAfterEdits(edits) ==> !Truthy(e.newText)
    ensures RenderBlock(content, edits, revision, commentIds) == Rendered([Unchanged(content)], revision)
    ensures CleanText(content, edits) == content
  {
    NoTruthyInserts(InsertAfterEdits(edits), revision, commentIds);
  }

  lemma {:induction false} NoTruthyInserts(inserts: seq<EditOperation>, revision: nat, commentIds: map<string, nat>)
    requires forall e :: e in inserts ==> !Truthy(e.newText)
    ensures InsertRuns(inserts, revision, commentIds) == Rendered([], revision)
    ensures CleanInserts(inserts) == ""
  {
    if |inserts| > 0 {
      NoTruthyInserts(inserts[1..], revision, commentIds);
    }
  }

  /** The tracked changes the applied range edits stand for. */
  function RangeChanges(content: string, spans: seq<Span>): seq<Change>
  {
    if |spans| == 0 then []
    else
      [Deletion(Slice(content, spans[0].start, spans[0].end))]
      + (if Replaces(spans[0].edit) then [Insertion(spans[0].edit.newText.value)] else [])
      + RangeChanges(content, spans[1..])
  }

  /** The tracked changes the `insert_after` edits stand for. */
  function InsertChanges(inserts: seq<EditOperation>): seq<Change>
  {
    if |inserts| == 0 then []
    else (if Truthy(inserts[0].newText) then [Insertion(" " + inserts[0].newText.value)] else []) + InsertChanges(inserts[1..])
  }

  /** Revision IDs `from, from + 1, ..., to - 1`, each once. */
  predicate Numbered(ids: seq<nat>, from: nat, to: nat)
  {
    from + |ids| == to && forall k :: 0 <= k < |ids| ==> ids[k] == from + k
  }

  lemma NumberedAppend(a: seq<nat>, b: seq<nat>, from: nat, mid: nat, to: nat)
    requires Numbered(a, from, mid) && Numbered(b, mid, to)
    ensures Numbered(a + b, from, to)
  {
  }

  lemma {:induction false} RangeRunsChanges(content: string, spans: seq<Span>, cursor: nat, revision: nat, commentIds: map<string, nat>)
    ensures Changes(RangeRuns(content, spans, cursor, revision, commentIds).runs) == RangeChanges(content, spans)
    ensures Numbered(Revisions(RangeRuns(content, spans, cursor, revision, commentIds).runs),
      revision, RangeRuns(content, spans, cursor, revision, commentIds).nextRevision)
  {
    if |spans| == 0 {
      if cursor < |content| {
        SingleViews(Unchanged(content[cursor..]));
      }
    } else {
      var h := SpanRuns(content, spans[0], cursor, revision, commentIds);
      var t := RangeRuns(content, spans[1..], spans[0].end, h.nextRevision, commentIds);
      SpanChanges(content, spans[0], cursor, revision, commentIds);
      SpanRevisions(content, spans[0], cursor, revision, commentIds);
      assert Numbered(Revisions(h.runs), revision, h.nextRevision);
      RangeRunsChanges(content, spans[1..], spans[0].end, h.nextRevision, commentIds);
      FlatAppend(h.runs, t.runs, ChangePiece);
      FlatAppend(h.runs, t.runs, RevisionPiece);
      NumberedAppend(Revisions(h.runs), Revisions(t.runs), revision, h.nextRevision, t.nextRevision);
    }
  }

  /**
   * The tracked changes of a redlined block, in order: for each applied range
   * edit a deletion of exactly its clamped range, followed by an insertion of
   * `newText` only for a `replace_range` with non-empty text; then, after all
   * range output and in input order, an insertion of `' ' + newText` for each
   * `insert_after` edit with non-empty text. The revision IDs are consecutive
   * from the counter's value on the way in, so none is used twice.
   */
  lemma RedlineChanges(content: string, edits: seq<EditOperation>, revision: nat, commentIds: map<string, nat>)
    ensures Changes(RenderBlock(content, edits, revision, commentIds).runs)
         == RangeChanges(content, Resolve(edits, |content|)) + InsertChanges(InsertAfterEdits(edits))
    ensures Numbered(Revisions(RenderBlock(content, edits, revision, commentIds).runs),
      revision, RenderBlock(content, edits, revision, commentIds).nextRevision)
  {
    var spans := Resolve(edits, |content|);
    var r := RangeRuns(content, spans, 0, revision, commentIds);
    var a := InsertRuns(InsertAfterEdits(edits), r.nextRevision, commentIds);
    RangeRunsChanges(content, spans, 0, revision, commentIds);
    InsertRunsViews(InsertAfterEdits(edits), r.nextRevision, commentIds);
    FlatAppend(r.runs, a.runs, ChangePiece);
    FlatAppend(r.runs, a.runs, RevisionPiece);
    NumberedAppend(Revisions(r.runs), Revisions(a.runs), revision, r.nextRevision, a.nextRevision);
    if |r.runs + a.runs| == 0 {
      SingleViews(Unchanged(content));
    }
  }

}
