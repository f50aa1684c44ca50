/**
 * The structured review playbook and its serialisation to the markdown that
 * heads the analysis prompt: the clause positions, the NDA screening defaults
 * and the three-level risk classification.
 */

module Playbook {
  import opened Wrappers
  import opened Text

  // ---------------------------------------------------------------------------
  // Data model
  // ---------------------------------------------------------------------------

  datatype ContractKind = Nda | Service | License

  /** A numeric position, with the standard value and the acceptable bounds. */
  datatype Threshold = Threshold(unit: string, standard: int, min: int, max: int)

  datatype PlaybookClause = PlaybookClause(
    id: string,
    category: string,
    standardPosition: string,
    acceptableRange: Option<string>,
    escalationTrigger: string,
    appliesTo: seq<ContractKind>,
    threshold: Option<Threshold>)

  /** One screening criterion; `title` is the source's `label`. */
  datatype ScreeningItem = ScreeningItem(title: string, detail: string)

  datatype ScreeningDefault = ScreeningDefault(category: string, items: seq<ScreeningItem>)

  datatype Tier = Green | Yellow | Red

  /** One level of the classification framework; `title` is the source's `label`. */
  datatype ClassificationLevel = ClassificationLevel(
    level: Tier, title: string, description: string, action: string, timeline: string)

  function TierName(t: Tier): (r: string)
    ensures r in {"GREEN", "YELLOW", "RED"}
  {
    match t
    case Green => "GREEN"
    case Yellow => "YELLOW"
    case Red => "RED"
  }

  // ---------------------------------------------------------------------------
  // The playbook as written
  // ---------------------------------------------------------------------------

  const PlaybookClauses: seq<PlaybookClause> := [
    LiabilityCap, Indemnification, IpOwnership, DataProtection, Confidentiality,
    TermTermination, GoverningLaw, PaymentTerms, Insurance
  ]

  const LiabilityCap := PlaybookClause(
    "liability-cap", "Limitation of Liability",
    "Mutual cap at 12 months of fees paid or payable",
    Some("6-24 months of fees"),
    "Uncapped liability, inclusion of consequential damages, or unilateral caps",
    [Service, License], Some(Threshold("months", 12, 6, 24)))

  const Indemnification := PlaybookClause(
    "indemnification", "Indemnification",
    "Mutual indemnification for IP infringement and data breach caused by the indemnifying party",
    Some("Indemnification limited to third-party claims only"),
    "Unilateral indemnification obligations, unlimited indemnity, or indemnification for gross negligence/willful misconduct of the other party",
    [Service, License], None)

  const IpOwnership := PlaybookClause(
    "ip-ownership", "IP Ownership",
    "Each party retains all pre-existing IP; customer owns customer data; no assignment of background IP",
    Some("License grants for purpose of performing services"),
    "Broad IP assignment clauses, work-for-hire provisions for pre-existing IP, or restrictions on using general knowledge/skills",
    [Service, License], None)

  const DataProtection := PlaybookClause(
    "data-protection", "Data Protection",
    "Require DPA for any personal data processing; sub-processor notification rights; data deletion on termination",
    Some("GDPR/CCPA compliance, breach notification within 72 hours, data localization where required"),
    "No DPA offered, unsafe cross-border transfers, or unlimited sub-processor rights",
    [Service, License], None)

  const Confidentiality := PlaybookClause(
    "confidentiality", "Confidentiality",
    "Mutual confidentiality obligations with standard carveouts (2-3 year term, up to 5 years for trade secrets)",
    Some("Required carveouts: independently developed, publicly available, rightfully received from third party, required by law"),
    "Perpetual obligations, missing critical carveouts, or overbroad definitions",
    [Nda, Service, License], Some(Threshold("years", 3, 2, 5)))

  const TermTermination := PlaybookClause(
    "term-termination", "Term & Termination",
    "Annual term with 30-day termination for convenience after initial term",
    Some("Multi-year terms with termination for convenience after initial term"),
    "Auto-renewal without adequate notice (less than 60 days), no termination for convenience, or excessive early termination penalties",
    [Service, License], Some(Threshold("months", 12, 12, 36)))

  const GoverningLaw := PlaybookClause(
    "governing-law", "Governing Law",
    "New York or Delaware",
    Some("California, England & Wales, other major commercial jurisdictions"),
    "Non-standard jurisdictions, mandatory arbitration with unfavorable rules, or venue outside major commercial centers",
    [Nda, Service, License], None)

  const PaymentTerms := PlaybookClause(
    "payment-terms", "Payment Terms",
    "Net 30 from invoice date",
    Some("Net 45-60 for enterprise clients"),
    "Payment in advance for full term, automatic price escalation without caps, or late payment interest above 1.5% per month",
    [Service, License], None)

  const Insurance := PlaybookClause(
    "insurance", "Insurance",
    "Commercial general liability ($1M), professional liability/E&O ($1M), cyber liability ($1M)",
    Some("Reasonable variations based on deal size"),
    "Requirements exceeding $5M without justification or unusual coverage types",
    [Service], None)

  const NdaScreening: seq<ScreeningDefault> := [
    ScreeningDefault("Structure & Term", [
      ScreeningItem("Mutual Obligations", "Required for exploratory discussions; unilateral only when one party is disclosing"),
      ScreeningItem("Agreement Term", "2-3 years standard"),
      ScreeningItem("Confidentiality Survival", "2-5 years from disclosure")
    ]),
    ScreeningDefault("Required Carveouts", [
      ScreeningItem("Publicly Available Information", "Must be present"),
      ScreeningItem("Independently Developed", "Must be present"),
      ScreeningItem("Third-Party Receipt", "Rightfully received from third parties"),
      ScreeningItem("Legal Compulsion", "Disclosure required by law, with notice where permitted"),
      ScreeningItem("Prior Possession", "Must be present")
    ]),
    ScreeningDefault("Prohibited Provisions", [
      ScreeningItem("Non-Compete Clauses", "Triggers RED classification"),
      ScreeningItem("Non-Solicitation", "Employee non-solicitation triggers RED"),
      ScreeningItem("Exclusivity Provisions", "Triggers RED classification"),
      ScreeningItem("Broad Residuals Clauses", "Acceptable only if limited to unaided memory; must exclude trade secrets"),
      ScreeningItem("IP Assignment or Licensing", "Triggers RED classification"),
      ScreeningItem("Audit Rights", "Triggers RED classification")
    ])
  ]

  const ClassificationLevels: seq<ClassificationLevel> := [
    ClassificationLevel(Green, "Standard Approval",
      "All standard positions met or exceeded. No escalation triggers present.",
      "Approve per delegation of authority", "Same day"),
    ClassificationLevel(Yellow, "Counsel Review",
      "Minor deviations from standard positions. Within acceptable ranges. One or two issues to negotiate.",
      "Route to designated reviewer", "1-2 business days"),
    ClassificationLevel(Red, "Escalate",
      "Outside acceptable ranges. Escalation triggers present. May need counterproposal with standard terms.",
      "Full legal review, prepare counterproposal", "3-5 business days")
  ]

  /** Every numeric threshold of the playbook has its standard value within its bounds. */
  lemma ThresholdsOrdered()
    ensures forall k :: 0 <= k < |PlaybookClauses| && PlaybookClauses[k].threshold.Some? ==>
      PlaybookClauses[k].threshold.value.min <= PlaybookClauses[k].threshold.value.standard
        <= PlaybookClauses[k].threshold.value.max
  {
    forall k | 0 <= k < |PlaybookClauses| && PlaybookClauses[k].threshold.Some?
      ensures PlaybookClauses[k].threshold.value.min <= PlaybookClauses[k].threshold.value.standard
        <= PlaybookClauses[k].threshold.value.max
    {
      assert k == 0 || k == 4 || k == 5;
    }
  }

  // ---------------------------------------------------------------------------
  // Lines
  // ---------------------------------------------------------------------------

  /** The text of a sequence of lines, each followed by a newline. */
  function Unlines(ls: seq<string>): (s: string)
  {
    if |ls| == 0 then "" else Unlines(ls[..|ls| - 1]) + ls[|ls| - 1] + "\n"
  }

  lemma {:induction false} UnlinesAppend(a: seq<string>, b: seq<string>)
    ensures Unlines(a + b) == Unlines(a) + Unlines(b)
    decreases |b|
  {
    if |b| == 0 {
      assert a + b == a;
    } else {
      var b' := b[..|b| - 1];
      assert (a + b)[..|a + b| - 1] == a + b';
      UnlinesAppend(a, b');
    }
  }

  /** The first newline of `s` at or after `i`, or the end of `s`. */
  function LineEnd(s: string, i: nat): (k: nat)
    requires i <= |s|
    ensures i <= k <= |s|
    ensures forall j :: i <= j < k ==> s[j] != '\n'
    ensures k < |s| ==> s[k] == '\n'
    decreases |s| - i
  {
    if i == |s| || s[i] == '\n' then i else LineEnd(s, i + 1)
  }

  /** Reading a text back as lines: the pieces between the newlines. */
  function Lines(s: string): seq<string>
    decreases |s|
  {
    if |s| == 0 then []
    else
      var k := LineEnd(s, 0);
      [s[..k]] + (if k < |s| then Lines(s[k + 1..]) else [])
  }

  predicate OneLine(l: string) { forall j :: 0 <= j < |l| ==> l[j] != '\n' }

  lemma LinesCons(l: string, rest: string)
    requires OneLine(l)
    ensures Lines(l + "\n" + rest) == [l] + Lines(rest)
  {
    var s := l + "\n" + rest;
    assert s[|l|] == '\n';
    assert forall j :: 0 <= j < |l| ==> s[j] == l[j];
    assert LineEnd(s, 0) == |l|;
    assert s[..|l|] == l && s[|l| + 1..] == rest;
  }

  /** Lines without newlines survive being written out and read back. */
  lemma {:induction false} LinesUnlines(ls: seq<string>)
    requires forall l | l in ls :: OneLine(l)
    ensures Lines(Unlines(ls)) == ls
  {
    if |ls| > 0 {
      assert forall l | l in ls[1..] :: l in ls;
      assert ls[0] in ls;
      UnlinesAppend([ls[0]], ls[1..]);
      assert [ls[0]] + ls[1..] == ls;
      UnlinesSnoc([], ls[0]);
      assert [] + [ls[0]] == [ls[0]];
      assert Unlines(ls) == ls[0] + "\n" + Unlines(ls[1..]);
      LinesCons(ls[0], Unlines(ls[1..]));
      LinesUnlines(ls[1..]);
    }
  }

  lemma UnlinesSnoc(ls: seq<string>, l: string)
    ensures Unlines(ls + [l]) == Unlines(ls) + (l + "\n")
  {
    assert (ls + [l])[..|ls|] == ls;
  }

  /** A line followed by an empty line, as one `md +=` of the source writes them. */
  lemma UnlinesSnocBlank(ls: seq<string>, l: string)
    ensures Unlines(ls + [l, ""]) == Unlines(ls) + (l + "\n\n")
  {
    UnlinesSnoc(ls, l);
    UnlinesSnoc(ls + [l], "");
    assert ls + [l] + [""] == ls + [l, ""];
    assert Unlines(ls) + (l + "\n") + ("" + "\n") == Unlines(ls) + (l + "\n\n");
  }

  // ---------------------------------------------------------------------------
  // The prompt, line by line
  // ---------------------------------------------------------------------------

  /** `if (clause.acceptableRange)`: present and not empty. */
  predicate HasRange(c: PlaybookClause) {
    c.acceptableRange.Some? && c.acceptableRange.value != ""
  }

  function ClauseLines(c: PlaybookClause): seq<string>
  {
    ["### " + c.category, "- **Standard position**: " + c.standardPosition]
      + (if HasRange(c) then ["- **Acceptable range**: " + c.acceptableRange.value] else [])
      + ["- **Escalation trigger**: " + c.escalationTrigger, ""]
  }

  function ClausesLines(cs: seq<PlaybookClause>, n: nat): seq<string>
    requires n <= |cs|
  {
    if n == 0 then [] else ClausesLines(cs, n - 1) + ClauseLines(cs[n - 1])
  }

  /** How a screening section lists its items. */
  datatype ListStyle = Numbered | Bulleted | Detailed

  function StyleOf(category: string): (st: ListStyle)
    ensures st == Numbered <==> category == "Required Carveouts"
    ensures st == Bulleted <==> category == "Prohibited Provisions"
  {
    if category == "Required Carveouts" then Numbered
    else if category == "Prohibited Provisions" then Bulleted
    else Detailed
  }

  function Intro(st: ListStyle): seq<string>
  {
    match st
    case Numbered => ["All of the following must be present:"]
    case Bulleted => ["The following trigger RED classification:"]
    case Detailed => []
  }

  /** Item `k` of a section: numbered from 1, a bare bullet, or labelled with its detail. */
  function ItemLine(st: ListStyle, items: seq<ScreeningItem>, k: nat): string
    requires k < |items|
  {
    match st
    case Numbered => NatToString(k + 1) + ". " + items[k].title
    case Bulleted => "- " + items[k].title
    case Detailed => "- **" + items[k].title + "**: " + items[k].detail
  }

  function ItemLines(st: ListStyle, items: seq<ScreeningItem>, n: nat): seq<string>
    requires n <= |items|
  {
    if n == 0 then [] else ItemLines(st, items, n - 1) + [ItemLine(st, items, n - 1)]
  }

  function SectionLines(sec: ScreeningDefault): seq<string>
  {
    var st := StyleOf(sec.category);
    ["### " + sec.category] + Intro(st) + ItemLines(st, sec.items, |sec.items|) + [""]
  }

  function SectionsLines(secs: seq<ScreeningDefault>, n: nat): seq<string>
    requires n <= |secs|
  {
    if n == 0 then [] else SectionsLines(secs, n - 1) + SectionLines(secs[n - 1])
  }

  function LevelLines(l: ClassificationLevel): seq<string>
  {
    ["### " + TierName(l.level) + " - " + l.title, "- " + l.description, "- Route: " + l.action, ""]
  }

  function LevelsLines(ls: seq<ClassificationLevel>, n: nat): seq<string>
    requires n <= |ls|
  {
    if n == 0 then [] else LevelsLines(ls, n - 1) + LevelLines(ls[n - 1])
  }

  /** The three top-level sections, in order, each with its header. */
  function PromptLines(cs: seq<PlaybookClause>, secs: seq<ScreeningDefault>, ls: seq<ClassificationLevel>): seq<string>
  {
    ["## Contract Review Positions", ""] + ClausesLines(cs, |cs|)
      + ["## NDA Screening Criteria", ""] + SectionsLines(secs, |secs|)
      + ["## Risk Classification", ""] + LevelsLines(ls, |ls|)
  }

  // ---------------------------------------------------------------------------
  // What the prompt's lines say
  // ---------------------------------------------------------------------------

  /** A top-level markdown header line. */
  predicate TopLevel(l: string) { StartsWith(l, "## ") }

  lemma NotTopLevel(l: string)
    requires |l| < 3 || l[0] != '#' || l[2] != ' '
    ensures !TopLevel(l)
  {
  }

  predicate NoTopLevel(ls: seq<string>) { forall l | l in ls :: !TopLevel(l) }

  lemma SubHeaderNotTop(x: string)
    ensures !TopLevel("### " + x)
  {
    assert ("### " + x)[2] == '#';
    NotTopLevel("### " + x);
  }

  lemma BulletNotTop(b: string, x: string)
    requires |b| > 0 && b[0] == '-'
    ensures !TopLevel(b + x)
  {
    assert (b + x)[0] == '-';
    NotTopLevel(b + x);
  }

  lemma ClauseNoTop(c: PlaybookClause)
    ensures NoTopLevel(ClauseLines(c))
  {
    SubHeaderNotTop(c.category);
    BulletNotTop("- **Standard position**: ", c.standardPosition);
    BulletNotTop("- **Escalation trigger**: ", c.escalationTrigger);
    NotTopLevel("");
    if HasRange(c) {
      BulletNotTop("- **Acceptable range**: ", c.acceptableRange.value);
    }
  }

  lemma {:induction false} ClausesNoTop(cs: seq<PlaybookClause>, n: nat)
    requires n <= |cs|
    ensures NoTopLevel(ClausesLines(cs, n))
  {
    if n > 0 {
      ClausesNoTop(cs, n - 1);
      ClauseNoTop(cs[n - 1]);
    }
  }

  lemma ItemNoTop(st: ListStyle, items: seq<ScreeningItem>, k: nat)
    requires k < |items|
    ensures !TopLevel(ItemLine(st, items, k))
  {
    var l := ItemLine(st, items, k);
    match st
    case Numbered =>
      assert l[0] == NatToString(k + 1)[0];
      NotTopLevel(l);
    case Bulleted =>
      BulletNotTop("- ", items[k].title);
    case Detailed =>
      assert l[0] == '-';
      NotTopLevel(l);
  }

  lemma {:induction false} ItemsNoTop(st: ListStyle, items: seq<ScreeningItem>, n: nat)
    requires n <= |items|
    ensures NoTopLevel(ItemLines(st, items, n))
  {
    if n > 0 {
      ItemsNoTop(st, items, n - 1);
      ItemNoTop(st, items, n - 1);
    }
  }

  lemma SectionNoTop(sec: ScreeningDefault)
    ensures NoTopLevel(SectionLines(sec))
  {
    var st := StyleOf(sec.category);
    SubHeaderNotTop(sec.category);
    NotTopLevel("");
    NotTopLevel("All of the following must be present:");
    NotTopLevel("The following trigger RED classification:");
    ItemsNoTop(st, sec.items, |sec.items|);
  }

  lemma {:induction false} SectionsNoTop(secs: seq<ScreeningDefault>, n: nat)
    requires n <= |secs|
    ensures NoTopLevel(SectionsLines(secs, n))
  {
    if n > 0 {
      SectionsNoTop(secs, n - 1);
      SectionNoTop(secs[n - 1]);
    }
  }

  lemma LevelNoTop(l: ClassificationLevel)
    ensures NoTopLevel(LevelLines(l))
  {
    var h := "### " + TierName(l.level) + " - " + l.title;
    assert h[2] == '#';
    NotTopLevel(h);
    BulletNotTop("- ", l.description);
    BulletNotTop("- Route: ", l.action);
    NotTopLevel("");
  }

  lemma {:induction false} LevelsNoTop(ls: seq<ClassificationLevel>, n: nat)
    requires n <= |ls|
    ensures NoTopLevel(LevelsLines(ls, n))
  {
    if n > 0 {
      LevelsNoTop(ls, n - 1);
      LevelNoTop(ls[n - 1]);
    }
  }

  /** Of the lines `h1 + a + h2 + b + h3 + c`, the top-level headers are exactly the three header lines. */
  lemma TopLevelExactly(a: seq<string>, b: seq<string>, c: seq<string>, h1: string, h2: string, h3: string, p: seq<string>)
    requires NoTopLevel(a) && NoTopLevel(b) && NoTopLevel(c) && TopLevel(h1) && TopLevel(h2) && TopLevel(h3)
    requires p == [h1, ""] + a + [h2, ""] + b + [h3, ""] + c
    ensures forall k :: 0 <= k < |p| ==>
      (TopLevel(p[k]) <==> k == 0 || k == 2 + |a| || k == 4 + |a| + |b|)
  {
    NotTopLevel("");
    var n1, n2 := 2 + |a|, 4 + |a| + |b|;
    forall k | 0 <= k < |p|
      ensures TopLevel(p[k]) <==> k == 0 || k == n1 || k == n2
    {
      if k < 2 {
      } else if k < n1 {
        assert p[k] == a[k - 2];
      } else if k < n1 + 2 {
      } else if k < n2 {
        assert p[k] == b[k - n1 - 2];
      } else if k < n2 + 2 {
      } else {
        assert p[k] == c[k - n2 - 2];
      }
    }
  }

  lemma HeadersTopLevel()
    ensures TopLevel("## Contract Review Positions") && TopLevel("## NDA Screening Criteria")
    ensures TopLevel("## Risk Classification")
  {
    assert "## Contract Review Positions"[..3] == "## ";
    assert "## NDA Screening Criteria"[..3] == "## ";
    assert "## Risk Classification"[..3] == "## ";
  }

  /**
   * Exactly three lines of the prompt are top-level headers: Contract Review
   * Positions first, then NDA Screening Criteria, then Risk Classification.
   */
  lemma PromptSections(cs: seq<PlaybookClause>, secs: seq<ScreeningDefault>, ls: seq<ClassificationLevel>)
    ensures var p, n1 := PromptLines(cs, secs, ls), 2 + |ClausesLines(cs, |cs|)|;
      var n2 := n1 + 2 + |SectionsLines(secs, |secs|)|;
      && 0 < n1 < n2 < |p|
      && p[0] == "## Contract Review Positions"
      && p[n1] == "## NDA Screening Criteria"
      && p[n2] == "## Risk Classification"
      && forall k :: 0 <= k < |p| ==> (TopLevel(p[k]) <==> k == 0 || k == n1 || k == n2)
  {
    ClausesNoTop(cs, |cs|);
    SectionsNoTop(secs, |secs|);
    LevelsNoTop(ls, |ls|);
    HeadersTopLevel();
    TopLevelExactly(ClausesLines(cs, |cs|), SectionsLines(secs, |secs|), LevelsLines(ls, |ls|),
      "## Contract Review Positions", "## NDA Screening Criteria", "## Risk Classification", PromptLines(cs, secs, ls));
  }

  /** The serialised prompt opens with the review-positions header and a blank line. */
  lemma PromptOpening(cs: seq<PlaybookClause>, secs: seq<ScreeningDefault>, ls: seq<ClassificationLevel>)
    ensures StartsWith(Unlines(PromptLines(cs, secs, ls)), "## Contract Review Positions\n\n")
  {
    var p := PromptLines(cs, secs, ls);
    var lines := ["## Contract Review Positions", ""];
    assert p == lines + p[2..];
    UnlinesAppend(lines, p[2..]);
    HeaderTexts();
    HeaderStep([], "## Contract Review Positions", "## Contract Review Positions\n\n");
    assert [] + lines == lines;
  }

  const RangeLabel := "- **Acceptable range**: "

  /** A text whose `i`-th character differs from the prefix's does not start with it. */
  lemma DiffersAt(t: string, p: string, i: nat)
    requires i < |t| && i < |p| && t[i] != p[i]
    ensures !StartsWith(t, p)
  {
    if |p| <= |t| {
      assert t[..|p|][i] == t[i];
    }
  }

  lemma LabelChars()
    ensures "### "[0] == '#' && RangeLabel[0] == '-'
    ensures "- **Standard position**: "[4] == 'S' && "- **Escalation trigger**: "[4] == 'E' && RangeLabel[4] == 'A'
  {}

  /** The header, the standard position, the trigger and the blank line are no range line. */
  lemma ClauseOtherLines(c: PlaybookClause)
    ensures !StartsWith("### " + c.category, RangeLabel)
    ensures !StartsWith("- **Standard position**: " + c.standardPosition, RangeLabel)
    ensures !StartsWith("- **Escalation trigger**: " + c.escalationTrigger, RangeLabel)
    ensures !StartsWith("", RangeLabel)
  {
    LabelChars();
    DiffersAt("### " + c.category, RangeLabel, 0);
    DiffersAt("- **Standard position**: " + c.standardPosition, RangeLabel, 4);
    DiffersAt("- **Escalation trigger**: " + c.escalationTrigger, RangeLabel, 4);
  }

  /** The acceptable-range line is written exactly when the clause has a non-empty range. */
  lemma ClauseRangeLine(c: PlaybookClause)
    ensures |ClauseLines(c)| == if HasRange(c) then 5 else 4
    ensures ClauseLines(c)[0] == "### " + c.category
    ensures ClauseLines(c)[1] == "- **Standard position**: " + c.standardPosition
    ensures ClauseLines(c)[|ClauseLines(c)| - 2] == "- **Escalation trigger**: " + c.escalationTrigger
    ensures (exists k :: 0 <= k < |ClauseLines(c)| && StartsWith(ClauseLines(c)[k], "- **Acceptable range**: "))
        <==> HasRange(c)
  {
    var ls := ClauseLines(c);
    var hd := "### " + c.category;
    var std := "- **Standard position**: " + c.standardPosition;
    var esc := "- **Escalation trigger**: " + c.escalationTrigger;
    ClauseOtherLines(c);
    if HasRange(c) {
      var r := RangeLabel + c.acceptableRange.value;
      assert ls == [hd, std, r, esc, ""];
      assert r[..|RangeLabel|] == RangeLabel;
      assert StartsWith(ls[2], RangeLabel);
    } else {
      assert ls == [hd, std, esc, ""];
      forall k | 0 <= k < |ls| ensures !StartsWith(ls[k], RangeLabel) {
        if k == 0 { assert ls[k] == hd; }
        else if k == 1 { assert ls[k] == std; }
        else if k == 2 { assert ls[k] == esc; }
        else { assert ls[k] == ""; }
      }
    }
  }

  /** A section's items are its lines after the header and the intro, one per item, in order. */
  lemma {:induction false} ItemLinesAt(st: ListStyle, items: seq<ScreeningItem>, n: nat)
    requires n <= |items|
    ensures |ItemLines(st, items, n)| == n
    ensures forall k :: 0 <= k < n ==> ItemLines(st, items, n)[k] == ItemLine(st, items, k)
  {
    if n > 0 {
      ItemLinesAt(st, items, n - 1);
    }
  }

  /**
   * Required Carveouts are numbered 1..n in list order, Prohibited Provisions
   * are bare bullets, and every other section pairs each label with its detail.
   */
  lemma SectionItems(sec: ScreeningDefault, k: nat)
    requires k < |sec.items|
    ensures var st := StyleOf(sec.category);
      var ls := SectionLines(sec);
      && |ls| == |Intro(st)| + |sec.items| + 2
      && ls[0] == "### " + sec.category
      && ls[|ls| - 1] == ""
      && ls[1 + |Intro(st)| + k] == ItemLine(st, sec.items, k)
    ensures sec.category == "Required Carveouts" ==>
      SectionLines(sec)[2 + k] == NatToString(k + 1) + ". " + sec.items[k].title
    ensures sec.category == "Prohibited Provisions" ==>
      SectionLines(sec)[2 + k] == "- " + sec.items[k].title
    ensures sec.category != "Required Carveouts" && sec.category != "Prohibited Provisions" ==>
      SectionLines(sec)[1 + k] == "- **" + sec.items[k].title + "**: " + sec.items[k].detail
  {
    var st := StyleOf(sec.category);
    var body := ItemLines(st, sec.items, |sec.items|);
    ItemLinesAt(st, sec.items, |sec.items|);
    FramedAt("### " + sec.category, Intro(st), body, k);
    IntroLength(st);
  }

  lemma IntroLength(st: ListStyle)
    ensures |Intro(st)| == if st == Detailed then 0 else 1
  {}

  /** The lines of a header, an intro, a body and a closing blank line. */
  lemma FramedAt(hd: string, intro: seq<string>, body: seq<string>, k: nat)
    requires k < |body|
    ensures var ls := [hd] + intro + body + [""];
      && |ls| == |intro| + |body| + 2 && ls[0] == hd && ls[|ls| - 1] == "" && ls[1 + |intro| + k] == body[k]
  {}

  // ---------------------------------------------------------------------------
  // Reading the prompt back
  // ---------------------------------------------------------------------------

  predicate AllOneLine(ls: seq<string>) { forall l | l in ls :: OneLine(l) }

  lemma OneLineConcat(a: string, b: string)
    requires OneLine(a) && OneLine(b)
    ensures OneLine(a + b)
  {
    assert forall j :: |a| <= j < |a + b| ==> (a + b)[j] == b[j - |a|];
  }

  /** No field of the playbook holds a newline. */
  predicate FieldsOneLine(cs: seq<PlaybookClause>, secs: seq<ScreeningDefault>, ls: seq<ClassificationLevel>)
  {
    && (forall k :: 0 <= k < |cs| ==> ClauseOneLine(cs[k]))
    && (forall k :: 0 <= k < |secs| ==> SectionOneLine(secs[k]))
    && (forall k :: 0 <= k < |ls| ==> OneLine(ls[k].title) && OneLine(ls[k].description) && OneLine(ls[k].action))
  }

  predicate ClauseOneLine(c: PlaybookClause) {
    && OneLine(c.category) && OneLine(c.standardPosition) && OneLine(c.escalationTrigger)
    && (c.acceptableRange.Some? ==> OneLine(c.acceptableRange.value))
  }

  predicate SectionOneLine(sec: ScreeningDefault) {
    OneLine(sec.category)
    && forall k :: 0 <= k < |sec.items| ==> OneLine(sec.items[k].title) && OneLine(sec.items[k].detail)
  }

  lemma ClauseLinesOneLine(c: PlaybookClause)
    requires ClauseOneLine(c)
    ensures AllOneLine(ClauseLines(c))
  {
    ClauseLabelsOneLine();
    OneLineConcat("### ", c.category);
    OneLineConcat("- **Standard position**: ", c.standardPosition);
    OneLineConcat("- **Escalation trigger**: ", c.escalationTrigger);
    if HasRange(c) {
      OneLineConcat("- **Acceptable range**: ", c.acceptableRange.value);
    }
  }

  lemma ClauseLabelsOneLine()
    ensures OneLine("### ") && OneLine("- **Standard position**: ")
    ensures OneLine("- **Escalation trigger**: ") && OneLine("- **Acceptable range**: ")
  {}

  lemma {:induction false} ClausesOneLine(cs: seq<PlaybookClause>, n: nat)
    requires n <= |cs| && forall k :: 0 <= k < |cs| ==> ClauseOneLine(cs[k])
    ensures AllOneLine(ClausesLines(cs, n))
  {
    forall k | 0 <= k < |cs|
      ensures AllOneLine(ClauseLines(cs[k]))
    {
      ClauseLinesOneLine(cs[k]);
    }
    BlocksOneLine(cs, n);
  }

  lemma {:induction false} BlocksOneLine(cs: seq<PlaybookClause>, n: nat)
    requires n <= |cs| && forall k :: 0 <= k < |cs| ==> AllOneLine(ClauseLines(cs[k]))
    ensures AllOneLine(ClausesLines(cs, n))
  {
    if n > 0 {
      BlocksOneLine(cs, n - 1);
      assert AllOneLine(ClauseLines(cs[n - 1]));
    }
  }

  lemma ItemOneLine(st: ListStyle, items: seq<ScreeningItem>, k: nat)
    requires k < |items| && OneLine(items[k].title) && OneLine(items[k].detail)
    ensures OneLine(ItemLine(st, items, k))
  {
    var t := items[k].title;
    match st
    case Numbered =>
      OneLineConcat(NatToString(k + 1), ". ");
      OneLineConcat(NatToString(k + 1) + ". ", t);
    case Bulleted =>
      OneLineConcat("- ", t);
    case Detailed =>
      OneLineConcat("- **", t);
      OneLineConcat("- **" + t, "**: ");
      OneLineConcat("- **" + t + "**: ", items[k].detail);
  }

  lemma {:induction false} ItemsOneLine(st: ListStyle, items: seq<ScreeningItem>, n: nat)
    requires n <= |items| && forall k :: 0 <= k < |items| ==> OneLine(items[k].title) && OneLine(items[k].detail)
    ensures AllOneLine(ItemLines(st, items, n))
  {
    if n > 0 {
      ItemsOneLine(st, items, n - 1);
      ItemOneLine(st, items, n - 1);
    }
  }

  lemma SectionLinesOneLine(sec: ScreeningDefault)
    requires SectionOneLine(sec)
    ensures AllOneLine(SectionLines(sec))
  {
    var st := StyleOf(sec.category);
    OneLineConcat("### ", sec.category);
    ItemsOneLine(st, sec.items, |sec.items|);
    IntroOneLine(st);
  }

  lemma IntroOneLine(st: ListStyle)
    ensures AllOneLine(Intro(st))
  {
    assert OneLine("All of the following must be present:");
    assert OneLine("The following trigger RED classification:");
  }

  lemma {:induction false} SectionsOneLine(secs: seq<ScreeningDefault>, n: nat)
    requires n <= |secs| && forall k :: 0 <= k < |secs| ==> SectionOneLine(secs[k])
    ensures AllOneLine(SectionsLines(secs, n))
  {
    if n > 0 {
      SectionsOneLine(secs, n - 1);
      SectionLinesOneLine(secs[n - 1]);
    }
  }

  lemma LevelLinesOneLine(l: ClassificationLevel)
    requires OneLine(l.title) && OneLine(l.description) && OneLine(l.action)
    ensures AllOneLine(LevelLines(l))
  {
    OneLineConcat("### ", TierName(l.level));
    OneLineConcat("### " + TierName(l.level), " - ");
    OneLineConcat("### " + TierName(l.level) + " - ", l.title);
    OneLineConcat("- ", l.description);
    OneLineConcat("- Route: ", l.action);
  }

  lemma {:induction false} LevelsOneLine(ls: seq<ClassificationLevel>, n: nat)
    requires n <= |ls| && forall k :: 0 <= k < |ls| ==> OneLine(ls[k].title) && OneLine(ls[k].description) && OneLine(ls[k].action)
    ensures AllOneLine(LevelsLines(ls, n))
  {
    if n > 0 {
      LevelsOneLine(ls, n - 1);
      LevelLinesOneLine(ls[n - 1]);
    }
  }

  lemma HeadersOneLine()
    ensures OneLine("## Contract Review Positions") && OneLine("## NDA Screening Criteria")
    ensures OneLine("## Risk Classification") && OneLine("")
  {}

  /**
   * When no field holds a newline, reading the serialised prompt back line by
   * line gives exactly the prompt's lines.
   */
  lemma PromptReadsBack(cs: seq<PlaybookClause>, secs: seq<ScreeningDefault>, ls: seq<ClassificationLevel>)
    requires FieldsOneLine(cs, secs, ls)
    ensures Lines(Unlines(PromptLines(cs, secs, ls))) == PromptLines(cs, secs, ls)
  {
    ClausesOneLine(cs, |cs|);
    SectionsOneLine(secs, |secs|);
    LevelsOneLine(ls, |ls|);
    PartsOneLine(ClausesLines(cs, |cs|), SectionsLines(secs, |secs|), LevelsLines(ls, |ls|), PromptLines(cs, secs, ls));
    LinesUnlines(PromptLines(cs, secs, ls));
  }

  lemma PartsOneLine(a: seq<string>, b: seq<string>, c: seq<string>, p: seq<string>)
    requires AllOneLine(a) && AllOneLine(b) && AllOneLine(c)
    requires p == ["## Contract Review Positions", ""] + a + ["## NDA Screening Criteria", ""] + b
      + ["## Risk Classification", ""] + c
    ensures AllOneLine(p)
  {
    HeadersOneLine();
  }

  // ---------------------------------------------------------------------------
  // The serialiser
  // ---------------------------------------------------------------------------

  /** A top-level header and the blank line after it, as the source writes them in one literal. */
  lemma HeaderStep(ls: seq<string>, h: string, text: string)
    requires text == h + "\n\n"
    ensures Unlines(ls + [h, ""]) == Unlines(ls) + text
  {
    UnlinesSnocBlank(ls, h);
  }

  lemma HeaderTexts()
    ensures "## Contract Review Positions" + "\n\n" == "## Contract Review Positions\n\n"
    ensures "## NDA Screening Criteria" + "\n\n" == "## NDA Screening Criteria\n\n"
    ensures "## Risk Classification" + "\n\n" == "## Risk Classification\n\n"
  {}

  lemma NoTail(pre: seq<string>, tail: seq<string>)
    requires tail == []
    ensures pre + tail == pre
  {}

  lemma ClauseStep(pre: seq<string>, c: PlaybookClause)
    ensures HasRange(c) ==>
      Unlines(pre + ClauseLines(c))
        == Unlines(pre)
          + ("### " + c.category + "\n")
          + ("- **Standard position**: " + c.standardPosition + "\n")
          + ("- **Acceptable range**: " + c.acceptableRange.value + "\n")
          + ("- **Escalation trigger**: " + c.escalationTrigger + "\n\n")
    ensures !HasRange(c) ==>
      Unlines(pre + ClauseLines(c))
        == Unlines(pre)
          + ("### " + c.category + "\n")
          + ("- **Standard position**: " + c.standardPosition + "\n")
          + ("- **Escalation trigger**: " + c.escalationTrigger + "\n\n")
  {
    var l1 := pre + ["### " + c.category];
    var l2 := l1 + ["- **Standard position**: " + c.standardPosition];
    var last := "- **Escalation trigger**: " + c.escalationTrigger;
    if HasRange(c) {
      var l3 := l2 + ["- **Acceptable range**: " + c.acceptableRange.value];
      assert pre + ClauseLines(c) == l3 + [last, ""];
      UnlinesSnoc(pre, "### " + c.category);
      UnlinesSnoc(l1, "- **Standard position**: " + c.standardPosition);
      UnlinesSnoc(l2, "- **Acceptable range**: " + c.acceptableRange.value);
      UnlinesSnocBlank(l3, last);
    } else {
      assert pre + ClauseLines(c) == l2 + [last, ""];
      UnlinesSnoc(pre, "### " + c.category);
      UnlinesSnoc(l1, "- **Standard position**: " + c.standardPosition);
      UnlinesSnocBlank(l2, last);
    }
  }

  lemma ClausesSnoc(pre: seq<string>, cs: seq<PlaybookClause>, i: nat)
    requires i < |cs|
    ensures pre + ClausesLines(cs, i + 1) == (pre + ClausesLines(cs, i)) + ClauseLines(cs[i])
  {}

  const CarveoutIntro := "All of the following must be present:\n"
  const ProhibitedIntro := "The following trigger RED classification:\n"

  lemma SectionStart(pre: seq<string>, sec: ScreeningDefault)
    ensures StyleOf(sec.category) == Numbered ==>
      Unlines(pre + ["### " + sec.category] + Intro(Numbered))
        == Unlines(pre) + ("### " + sec.category + "\n") + CarveoutIntro
    ensures StyleOf(sec.category) == Bulleted ==>
      Unlines(pre + ["### " + sec.category] + Intro(Bulleted))
        == Unlines(pre) + ("### " + sec.category + "\n") + ProhibitedIntro
    ensures Unlines(pre + ["### " + sec.category] + Intro(Detailed))
        == Unlines(pre) + ("### " + sec.category + "\n")
  {
    var l1 := pre + ["### " + sec.category];
    assert l1 + Intro(Detailed) == l1;
    assert "All of the following must be present:" + "\n" == CarveoutIntro;
    assert "The following trigger RED classification:" + "\n" == ProhibitedIntro;
    UnlinesSnoc(pre, "### " + sec.category);
    UnlinesSnoc(l1, "All of the following must be present:");
    UnlinesSnoc(l1, "The following trigger RED classification:");
  }

  lemma ItemStep(pre: seq<string>, st: ListStyle, items: seq<ScreeningItem>, j: nat)
    requires j < |items|
    ensures Unlines(pre + ItemLines(st, items, j + 1)) == Unlines(pre + ItemLines(st, items, j)) + (ItemLine(st, items, j) + "\n")
  {
    assert pre + ItemLines(st, items, j + 1) == (pre + ItemLines(st, items, j)) + [ItemLine(st, items, j)];
    UnlinesSnoc(pre + ItemLines(st, items, j), ItemLine(st, items, j));
  }

  lemma SectionClose(pre: seq<string>, sec: ScreeningDefault)
    ensures Unlines(pre + SectionLines(sec))
         == Unlines(pre + ["### " + sec.category] + Intro(StyleOf(sec.category))
              + ItemLines(StyleOf(sec.category), sec.items, |sec.items|)) + "\n"
  {
    var st := StyleOf(sec.category);
    var body := pre + ["### " + sec.category] + Intro(st) + ItemLines(st, sec.items, |sec.items|);
    assert pre + SectionLines(sec) == body + [""];
    UnlinesSnoc(body, "");
    assert Unlines(body) + ("" + "\n") == Unlines(body) + "\n";
  }

  lemma SectionsSnoc(pre: seq<string>, secs: seq<ScreeningDefault>, i: nat)
    requires i < |secs|
    ensures pre + SectionsLines(secs, i + 1) == (pre + SectionsLines(secs, i)) + SectionLines(secs[i])
  {}

  lemma LevelStep(pre: seq<string>, l: ClassificationLevel)
    ensures Unlines(pre + LevelLines(l))
         == Unlines(pre)
          + ("### " + TierName(l.level) + " - " + l.title + "\n")
          + ("- " + l.description + "\n")
          + ("- Route: " + l.action + "\n\n")
  {
    var l1 := pre + ["### " + TierName(l.level) + " - " + l.title];
    var l2 := l1 + ["- " + l.description];
    assert pre + LevelLines(l) == l2 + ["- Route: " + l.action, ""];
    UnlinesSnoc(pre, "### " + TierName(l.level) + " - " + l.title);
    UnlinesSnoc(l1, "- " + l.description);
    UnlinesSnocBlank(l2, "- Route: " + l.action);
  }

  lemma LevelsSnoc(pre: seq<string>, ls: seq<ClassificationLevel>, i: nat)
    requires i < |ls|
    ensures pre + LevelsLines(ls, i + 1) == (pre + LevelsLines(ls, i)) + LevelLines(ls[i])
  {}

  /**
   * `toPromptString` over the given playbook: the markdown is the prompt's
   * lines, each followed by a newline.
   */
  method SerializePlaybook(clauses: seq<PlaybookClause>, sections: seq<ScreeningDefault>, levels: seq<ClassificationLevel>)
    returns (md: string)
    ensures md == Unlines(PromptLines(clauses, sections, levels))
  {
    HeaderTexts();
    ghost var review := ["## Contract Review Positions", ""];
    HeaderStep([], "## Contract Review Positions", "## Contract Review Positions\n\n");
    assert [] + review == review;
    md := "## Contract Review Positions\n\n";
    md := AppendClauses(md, review, clauses);

    ghost var before := review + ClausesLines(clauses, |clauses|) + ["## NDA Screening Criteria", ""];
    HeaderStep(review + ClausesLines(clauses, |clauses|), "## NDA Screening Criteria", "## NDA Screening Criteria\n\n");
    md := md + "## NDA Screening Criteria\n\n";
    md := AppendSections(md, before, sections);

    ghost var before2 := before + SectionsLines(sections, |sections|) + ["## Risk Classification", ""];
    HeaderStep(before + SectionsLines(sections, |sections|), "## Risk Classification", "## Risk Classification\n\n");
    md := md + "## Risk Classification\n\n";
    md := AppendLevels(md, before2, levels);
  }

  /** The loop over the clause positions. */
  method AppendClauses(md0: string, ghost pre: seq<string>, clauses: seq<PlaybookClause>) returns (md: string)
    requires md0 == Unlines(pre)
    ensures md == Unlines(pre + ClausesLines(clauses, |clauses|))
  {
    md := md0;
    NoTail(pre, ClausesLines(clauses, 0));
    for i := 0 to |clauses|
      invariant md == Unlines(pre + ClausesLines(clauses, i))
    {
      var clause := clauses[i];
      ClausesSnoc(pre, clauses, i);
      ClauseStep(pre + ClausesLines(clauses, i), clause);
      md := md + ("### " + clause.category + "\n");
      md := md + ("- **Standard position**: " + clause.standardPosition + "\n");
      if clause.acceptableRange.Some? && clause.acceptableRange.value != "" {
        md := md + ("- **Acceptable range**: " + clause.acceptableRange.value + "\n");
      }
      md := md + ("- **Escalation trigger**: " + clause.escalationTrigger + "\n\n");
    }
  }

  /** The loop over the NDA screening sections. */
  method AppendSections(md0: string, ghost pre: seq<string>, sections: seq<ScreeningDefault>) returns (md: string)
    requires md0 == Unlines(pre)
    ensures md == Unlines(pre + SectionsLines(sections, |sections|))
  {
    md := md0;
    NoTail(pre, SectionsLines(sections, 0));
    for i := 0 to |sections|
      invariant md == Unlines(pre + SectionsLines(sections, i))
    {
      SectionsSnoc(pre, sections, i);
      md := AppendSection(md, pre + SectionsLines(sections, i), sections[i]);
    }
  }

  /** The loop over the classification levels. */
  method AppendLevels(md0: string, ghost pre: seq<string>, levels: seq<ClassificationLevel>) returns (md: string)
    requires md0 == Unlines(pre)
    ensures md == Unlines(pre + LevelsLines(levels, |levels|))
  {
    md := md0;
    NoTail(pre, LevelsLines(levels, 0));
    for i := 0 to |levels|
      invariant md == Unlines(pre + LevelsLines(levels, i))
    {
      var level := levels[i];
      LevelsSnoc(pre, levels, i);
      LevelStep(pre + LevelsLines(levels, i), level);
      md := md + ("### " + TierName(level.level) + " - " + level.title + "\n");
      md := md + ("- " + level.description + "\n");
      md := md + ("- Route: " + level.action + "\n\n");
    }
  }

  /** One pass of the screening loop: the section's header, its intro and its items. */
  method AppendSection(md0: string, ghost pre: seq<string>, section: ScreeningDefault) returns (md: string)
    requires md0 == Unlines(pre)
    ensures md == Unlines(pre + SectionLines(section))
  {
    ghost var st := StyleOf(section.category);
    ghost var head := pre + ["### " + section.category] + Intro(st);
    SectionStart(pre, section);
    md := md0 + ("### " + section.category + "\n");
    if section.category == "Required Carveouts" {
      md := md + "All of the following must be present:\n";
      md := AppendNumbered(md, head, section.items);
    } else if section.category == "Prohibited Provisions" {
      md := md + "The following trigger RED classification:\n";
      md := AppendBulleted(md, head, section.items);
    } else {
      md := AppendDetailed(md, head, section.items);
    }
    SectionClose(pre, section);
    md := md + "\n";
  }

  /** The Required Carveouts items, numbered from 1. */
  method AppendNumbered(md0: string, ghost head: seq<string>, items: seq<ScreeningItem>) returns (md: string)
    requires md0 == Unlines(head)
    ensures md == Unlines(head + ItemLines(Numbered, items, |items|))
  {
    md := md0;
    NoTail(head, ItemLines(Numbered, items, 0));
    for j := 0 to |items|
      invariant md == Unlines(head + ItemLines(Numbered, items, j))
    {
      var item := items[j];
      ItemStep(head, Numbered, items, j);
      md := md + (NatToString(j + 1) + ". " + item.title + "\n");
    }
  }

  /** The Prohibited Provisions items, as bullets without their details. */
  method AppendBulleted(md0: string, ghost head: seq<string>, items: seq<ScreeningItem>) returns (md: string)
    requires md0 == Unlines(head)
    ensures md == Unlines(head + ItemLines(Bulleted, items, |items|))
  {
    md := md0;
    NoTail(head, ItemLines(Bulleted, items, 0));
    for j := 0 to |items|
      invariant md == Unlines(head + ItemLines(Bulleted, items, j))
    {
      var item := items[j];
      ItemStep(head, Bulleted, items, j);
      md := md + ("- " + item.title + "\n");
    }
  }

  /** The items of every other section, each with its label in bold and its detail. */
  method AppendDetailed(md0: string, ghost head: seq<string>, items: seq<ScreeningItem>) returns (md: string)
    requires md0 == Unlines(head)
    ensures md == Unlines(head + ItemLines(Detailed, items, |items|))
  {
    md := md0;
    NoTail(head, ItemLines(Detailed, items, 0));
    for j := 0 to |items|
      invariant md == Unlines(head + ItemLines(Detailed, items, j))
    {
      var item := items[j];
      ItemStep(head, Detailed, items, j);
      md := md + ("- **" + item.title + "**: " + item.detail + "\n");
    }
  }

  /** `toPromptString()`: the serialisation of the playbook as written. */
  method ToPromptString() returns (md: string)
    ensures md == Unlines(PromptLines(PlaybookClauses, NdaScreening, ClassificationLevels))
  {
    md := SerializePlaybook(PlaybookClauses, NdaScreening, ClassificationLevels);
  }
}
