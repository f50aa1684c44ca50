/**
 * The document outline of the review screen (app/components/ClauseMap.jsx):
 * the block-to-issue index, the outline items derived from the blocks, and
 * the severity and truncation helpers the items use.
 */
module ClauseMap {
  import opened Wrappers
  import opened Text
  import opened Types
  import opened Annotator

  // ---------------------------------------------------------------------------
  // Severity
  // ---------------------------------------------------------------------------

  /** The order of the severities: red above yellow above everything else. */
  function SeverityRank(severity: string): (r: nat)
    ensures r <= 2
    ensures r == 2 <==> severity == "red"
    ensures r == 1 <==> severity == "yellow"
  {
    if severity == "red" then 2 else if severity == "yellow" then 1 else 0
  }

  /**
   * `getMaxSeverity`: `red` when some issue is red, otherwise `yellow` when
   * some issue is yellow, otherwise `green` (an empty list included). No
   * issue ranks above the result.
   */
  function MaxSeverity(issues: seq<Issue>): (r: string)
    ensures r == "red" || r == "yellow" || r == "green"
    ensures forall i :: 0 <= i < |issues| ==> SeverityRank(issues[i].severity) <= SeverityRank(r)
    ensures |issues| == 0 ==> r == "green"
  {
    if exists i | 0 <= i < |issues| :: issues[i].severity == "red" then "red"
    else if exists i | 0 <= i < |issues| :: issues[i].severity == "yellow" then "yellow"
    else "green"
  }

  /** The highest rank among the issues, by a fold over the list. */
  function MaxRank(issues: seq<Issue>): nat
  {
    if |issues| == 0 then 0
    else Max(MaxRank(issues[..|issues| - 1]), SeverityRank(issues[|issues| - 1].severity))
  }

  lemma {:induction false} MaxRankBounds(issues: seq<Issue>)
    ensures forall i :: 0 <= i < |issues| ==> SeverityRank(issues[i].severity) <= MaxRank(issues)
    ensures MaxRank(issues) == 0 || exists i :: 0 <= i < |issues| && SeverityRank(issues[i].severity) == MaxRank(issues)
  {
    if |issues| > 0 {
      var init := issues[..|issues| - 1];
      MaxRankBounds(init);
      forall i | 0 <= i < |init| ensures init[i] == issues[i] { }
    }
  }

  /** The severity `getMaxSeverity` reports has exactly the highest rank among the issues. */
  lemma MaxSeverityRank(issues: seq<Issue>)
    ensures SeverityRank(MaxSeverity(issues)) == MaxRank(issues)
  {
    MaxRankBounds(issues);
  }

  // ---------------------------------------------------------------------------
  // Truncation
  // ---------------------------------------------------------------------------

  /**
   * `truncate`: the empty text stays empty; a text no longer than
   * `maxLength` is kept; a longer one becomes its first `maxLength - 3`
   * characters (none when that is negative) and an ellipsis.
   */
  function TruncateLabel(text: string, maxLength: int): (r: string)
    ensures text == "" ==> r == ""
    ensures |text| <= maxLength ==> r == text
    ensures text != "" && |text| > maxLength ==>
      && EndsWith(r, "...")
      && StartsWith(text, r[..|r| - 3])
      && |r| == (if maxLength >= 3 then maxLength else 3)
  {
    if text == "" then "" else Truncate(text, maxLength)
  }

  // ---------------------------------------------------------------------------
  // Outline items
  // ---------------------------------------------------------------------------

  /** A heading entry, or a marker for a paragraph with issues under the section it belongs to. */
  datatype ItemKind = HeadingItem | IssueMarker(parentSection: Option<string>)

  datatype MapItem = MapItem(
    id: string,
    kind: ItemKind,
    level: int,
    content: string,
    hasIssues: bool,
    issueCount: nat,
    maxSeverity: string)

  /** The length to which an issue marker's content is cut. */
  const MarkerLength := 50

  /** `currentSection` before block `k`: the ID of the nearest heading before it, if any. */
  function CurrentSection(blocks: seq<Block>, k: nat): Option<string>
    requires k <= |blocks|
  {
    match LastHeadingBefore(blocks, k)
    case None => None
    case Some(j) => Some(blocks[j].id)
  }

  /** Block `k` gets an outline item: it is a heading, or some issue references it. */
  predicate Listed(blocks: seq<Block>, issues: seq<Issue>, k: nat)
    requires k < |blocks|
  {
    blocks[k].kind == Heading || |IssuesFor(issues, blocks[k].id)| > 0
  }

  /** The outline item of block `k`. */
  function ItemAt(blocks: seq<Block>, issues: seq<Issue>, k: nat): MapItem
    requires k < |blocks|
  {
    var b := blocks[k];
    var found := IssuesFor(issues, b.id);
    if b.kind == Heading then
      MapItem(b.id, HeadingItem, LevelOr(b, 1), b.content, |found| > 0, |found|, MaxSeverity(found))
    else
      var section := CurrentSection(blocks, k);
      MapItem(b.id, IssueMarker(section), if Truthy(section) then 2 else 1,
              TruncateLabel(b.content, MarkerLength), true, |found|, MaxSeverity(found))
  }

  /** The elements of `xs[..n]` whose mark is set, in order. */
  function Pick<T>(xs: seq<T>, marks: seq<bool>, n: nat): seq<T>
    requires n <= |xs| == |marks|
  {
    if n == 0 then []
    else Pick(xs, marks, n - 1) + (if marks[n - 1] then [xs[n - 1]] else [])
  }

  /** The indices below `n` whose mark is set, in increasing order. */
  function Marked(marks: seq<bool>, n: nat): seq<nat>
    requires n <= |marks|
  {
    if n == 0 then [] else Marked(marks, n - 1) + (if marks[n - 1] then [n - 1] else [])
  }

  /** The marked indices stay below `n` and increase. */
  lemma {:induction false} MarkedIncreasing(marks: seq<bool>, n: nat)
    requires n <= |marks|
    ensures forall j :: 0 <= j < |Marked(marks, n)| ==> Marked(marks, n)[j] < n
    ensures forall i, j :: 0 <= i < j < |Marked(marks, n)| ==> Marked(marks, n)[i] < Marked(marks, n)[j]
  {
    if n > 0 {
      MarkedIncreasing(marks, n - 1);
      var before := Marked(marks, n - 1);
      if marks[n - 1] {
        var now := before + [n - 1];
        assert Marked(marks, n) == now;
        assert forall j :: 0 <= j < |before| ==> now[j] == before[j];
      }
    }
  }

  /** An index below `n` is among the marked ones exactly when its mark is set. */
  lemma {:induction false} MarkedMembers(marks: seq<bool>, n: nat)
    requires n <= |marks|
    ensures forall k :: 0 <= k < n ==> (marks[k] <==> k in Marked(marks, n))
  {
    if n > 0 {
      MarkedMembers(marks, n - 1);
      MarkedIncreasing(marks, n - 1);
      var before := Marked(marks, n - 1);
      assert (n - 1) !in before;
      if marks[n - 1] {
        assert Marked(marks, n) == before + [n - 1];
      }
    }
  }

  /** `Pick` keeps one element per marked index, in index order. */
  lemma {:induction false} PickAt<T>(xs: seq<T>, marks: seq<bool>, n: nat)
    requires n <= |xs| == |marks|
    ensures |Pick(xs, marks, n)| == |Marked(marks, n)|
    ensures forall j :: 0 <= j < |Marked(marks, n)| ==>
      Marked(marks, n)[j] < |xs| && Pick(xs, marks, n)[j] == xs[Marked(marks, n)[j]]
  {
    if n > 0 {
      PickAt(xs, marks, n - 1);
      MarkedIncreasing(marks, n);
      var before, picked := Marked(marks, n - 1), Pick(xs, marks, n - 1);
      if marks[n - 1] {
        assert Marked(marks, n) == before + [n - 1];
        assert Pick(xs, marks, n) == picked + [xs[n - 1]];
      }
    }
  }

  /** The item of every block, listed or not. */
  function AllItems(blocks: seq<Block>, issues: seq<Issue>): (r: seq<MapItem>)
    ensures |r| == |blocks|
  {
    seq(|blocks|, k requires 0 <= k < |blocks| => ItemAt(blocks, issues, k))
  }

  /** Which blocks get an item. */
  function ListedMarks(blocks: seq<Block>, issues: seq<Issue>): (r: seq<bool>)
    ensures |r| == |blocks|
  {
    seq(|blocks|, k requires 0 <= k < |blocks| => Listed(blocks, issues, k))
  }

  /** The items of the first `n` blocks, in document order. */
  function ItemsUpTo(blocks: seq<Block>, issues: seq<Issue>, n: nat): seq<MapItem>
    requires n <= |blocks|
  {
    Pick(AllItems(blocks, issues), ListedMarks(blocks, issues), n)
  }

  /** The indices below `n` of the blocks that get an item, in increasing order. */
  function ListedUpTo(blocks: seq<Block>, issues: seq<Issue>, n: nat): seq<nat>
    requires n <= |blocks|
  {
    Marked(ListedMarks(blocks, issues), n)
  }

  /**
   * The items are those of the listed blocks, one each, in document order:
   * item `j` belongs to the `j`-th listed block, the listed indices increase,
   * and a block is among them exactly when it is a heading or has an issue.
   */
  lemma ItemsInOrder(blocks: seq<Block>, issues: seq<Issue>, n: nat)
    requires n <= |blocks|
    ensures |ItemsUpTo(blocks, issues, n)| == |ListedUpTo(blocks, issues, n)|
    ensures forall j :: 0 <= j < |ListedUpTo(blocks, issues, n)| ==>
      && ListedUpTo(blocks, issues, n)[j] < n
      && ItemsUpTo(blocks, issues, n)[j] == ItemAt(blocks, issues, ListedUpTo(blocks, issues, n)[j])
    ensures forall i, j :: 0 <= i < j < |ListedUpTo(blocks, issues, n)| ==>
      ListedUpTo(blocks, issues, n)[i] < ListedUpTo(blocks, issues, n)[j]
    ensures forall k :: 0 <= k < n ==> (Listed(blocks, issues, k) <==> k in ListedUpTo(blocks, issues, n))
  {
    var marks := ListedMarks(blocks, issues);
    MarkedIncreasing(marks, n);
    MarkedMembers(marks, n);
    PickAt(AllItems(blocks, issues), marks, n);
  }

  /**
   * An issue marker sits at level 2 only under some heading, and its parent
   * section is the ID of the nearest heading before it (none without one).
   * When the headings before it have non-empty IDs, as generated IDs do,
   * level 2 means exactly that some heading precedes it.
   */
  lemma MarkerSection(blocks: seq<Block>, issues: seq<Issue>, k: nat)
    requires k < |blocks| && blocks[k].kind != Heading
    ensures ItemAt(blocks, issues, k).kind.IssueMarker?
    ensures ItemAt(blocks, issues, k).level == 2 ==> exists j :: 0 <= j < k && blocks[j].kind == Heading
    ensures ItemAt(blocks, issues, k).kind.parentSection.None? <==> forall j :: 0 <= j < k ==> blocks[j].kind != Heading
    ensures ItemAt(blocks, issues, k).kind.parentSection.Some? ==>
      exists j :: 0 <= j < k && blocks[j].kind == Heading && blocks[j].id == ItemAt(blocks, issues, k).kind.parentSection.value &&
        forall m :: j < m < k ==> blocks[m].kind != Heading
    ensures (forall j :: 0 <= j < k && blocks[j].kind == Heading ==> blocks[j].id != "") ==>
      (ItemAt(blocks, issues, k).level == 2 <==> exists j :: 0 <= j < k && blocks[j].kind == Heading)
  {
    match LastHeadingBefore(blocks, k)
    case None =>
    case Some(j) =>
  }

  /** Every reference made by the issues, in issue order. */
  function AllRefs(issues: seq<Issue>): seq<string>
  {
    if |issues| == 0 then [] else AllRefs(issues[..|issues| - 1]) + issues[|issues| - 1].sourceBlockIds
  }

  lemma {:induction false} OccurrencesCount(issue: Issue, refs: seq<string>, id: string)
    ensures |Occurrences(issue, refs, id)| == multiset(refs)[id]
  {
    if |refs| > 0 {
      var init := refs[..|refs| - 1];
      OccurrencesCount(issue, init, id);
      assert refs == init + [refs[|refs| - 1]];
    }
  }

  /** The issues listed under an ID number the references to it, over all issues. */
  lemma {:induction false} IssuesForCount(issues: seq<Issue>, id: string)
    ensures |IssuesFor(issues, id)| == multiset(AllRefs(issues))[id]
  {
    if |issues| > 0 {
      var last := issues[|issues| - 1];
      IssuesForCount(issues[..|issues| - 1], id);
      OccurrencesCount(last, last.sourceBlockIds, id);
    }
  }

  /**
   * Every item counts the (issue, reference) pairs naming its block; it is
   * flagged exactly when that count is positive, and its severity is the
   * highest among those issues.
   */
  lemma ItemIssues(blocks: seq<Block>, issues: seq<Issue>, k: nat)
    requires k < |blocks|
    ensures ItemAt(blocks, issues, k).issueCount == multiset(AllRefs(issues))[blocks[k].id]
    ensures Listed(blocks, issues, k) ==> (ItemAt(blocks, issues, k).hasIssues <==> ItemAt(blocks, issues, k).issueCount > 0)
    ensures SeverityRank(ItemAt(blocks, issues, k).maxSeverity) == MaxRank(IssuesFor(issues, blocks[k].id))
  {
    IssuesForCount(issues, blocks[k].id);
    MaxSeverityRank(IssuesFor(issues, blocks[k].id));
  }

  /**
   * The `mapItems` loop: walks the blocks once, pushing an item for each
   * heading and for each other block with issues, and remembering the last
   * heading seen.
   */
  method BuildMapItems(blocks: seq<Block>, issues: seq<Issue>) returns (items: seq<MapItem>)
    ensures items == ItemsUpTo(blocks, issues, |blocks|)
  {
    var blockIssueMap := BuildBlockToIssueMap(issues);
    items := [];
    var currentSection: Option<string> := None;
    for k := 0 to |blocks|
      invariant items == ItemsUpTo(blocks, issues, k)
      invariant currentSection == CurrentSection(blocks, k)
    {
      var block := blocks[k];
      var blockIssues := if block.id in blockIssueMap then blockIssueMap[block.id] else [];
      assert blockIssues == IssuesFor(issues, block.id);
      if block.kind == Heading {
        items := items + [MapItem(block.id, HeadingItem, LevelOr(block, 1), block.content,
                                  |blockIssues| > 0, |blockIssues|, MaxSeverity(blockIssues))];
        currentSection := Some(block.id);
      } else if |blockIssues| > 0 {
        var level := if currentSection.Some? && currentSection.value != "" then 2 else 1;
        items := items + [MapItem(block.id, IssueMarker(currentSection), level,
                                  TruncateLabel(block.content, MarkerLength), true, |blockIssues|, MaxSeverity(blockIssues))];
      }
    }
  }
}
