/**
 * The value helpers of the HTML report generator: the brand styles chosen
 * for a classification, a severity and a check status, and the HTML escaper
 * applied to every interpolated string.
 */

module Report {
  import opened Wrappers
  import opened Text

  // ---------------------------------------------------------------------------
  // Brand colours
  // ---------------------------------------------------------------------------

  const BrandGreen := "#2E7D32"
  const BrandGreenBg := "#E8F5E9"
  const BrandYellow := "#92400E"
  const BrandYellowBg := "#FFF8E1"
  const BrandRed := "#C62828"
  const BrandRedBg := "#FFEBEE"
  /** The border of a WARNING badge, which is not one of the brand colours. */
  const WarningBorder := "#F59E0B"

  // ---------------------------------------------------------------------------
  // Styles
  // ---------------------------------------------------------------------------

  /** The banner style of the overall classification. */
  datatype ClassStyle = ClassStyle(color: string, bg: string, text: string)

  /** The badge style of one issue's severity. */
  datatype SeverityBadge = SeverityBadge(color: string, border: string, text: string)

  const Escalation := ClassStyle(BrandRed, BrandRedBg, "ESCALATION REQUIRED")
  const CounselReview := ClassStyle(BrandYellow, BrandYellowBg, "COUNSEL REVIEW")
  const StandardApproval := ClassStyle(BrandGreen, BrandGreenBg, "STANDARD APPROVAL")

  const Critical := SeverityBadge(BrandRed, BrandRed, "CRITICAL")
  const Warning := SeverityBadge(BrandYellow, WarningBorder, "WARNING")

  /**
   * `red` escalates, `yellow` goes to counsel review and every other value,
   * the empty and the unknown ones included, is a standard approval.
   */
  function ClassificationStyle(classification: string): (r: ClassStyle)
    ensures r == Escalation <==> classification == "red"
    ensures r == CounselReview <==> classification == "yellow"
    ensures r == StandardApproval <==> classification != "red" && classification != "yellow"
    ensures r.text == "ESCALATION REQUIRED" <==> classification == "red"
  {
    match classification
    case "red" => Escalation
    case "yellow" => CounselReview
    case _ => StandardApproval
  }

  /** Only `red` is critical; every other severity renders as a warning. */
  function SeverityStyle(severity: string): (r: SeverityBadge)
    ensures r == Critical <==> severity == "red"
    ensures r == Warning <==> severity != "red"
    ensures r.color == r.border <==> severity == "red"
  {
    if severity == "red" then Critical else Warning
  }

  /** The icon of a check that passed: a green tick in a green circle. */
  const CheckIcon :=
    "<svg width=\"16\" height=\"16\" viewBox=\"0 0 16 16\" fill=\"none\" xmlns=\"http://www.w3.org/2000/svg\">\n"
    + "      <circle cx=\"8\" cy=\"8\" r=\"7\" fill=\"" + BrandGreenBg + "\" stroke=\"" + BrandGreen + "\" stroke-width=\"1\"/>\n"
    + "      <path d=\"M5 8.5L7 10.5L11 6\" stroke=\"" + BrandGreen
    + "\" stroke-width=\"1.5\" stroke-linecap=\"round\" stroke-linejoin=\"round\"/>\n"
    + "    </svg>"

  /** The icon of every other check: a red cross in a red circle. */
  const CrossIcon :=
    "<svg width=\"16\" height=\"16\" viewBox=\"0 0 16 16\" fill=\"none\" xmlns=\"http://www.w3.org/2000/svg\">\n"
    + "    <circle cx=\"8\" cy=\"8\" r=\"7\" fill=\"" + BrandRedBg + "\" stroke=\"" + BrandRed + "\" stroke-width=\"1\"/>\n"
    + "    <path d=\"M5.5 10.5L10.5 5.5M5.5 5.5l5 5\" stroke=\"" + BrandRed
    + "\" stroke-width=\"1.5\" stroke-linecap=\"round\"/>\n"
    + "  </svg>"

  /** The two icons are different pictures. */
  lemma IconsDiffer()
    ensures CheckIcon != CrossIcon
  {
    assert |CheckIcon| == 311 && |CrossIcon| == 293;
  }

  /** The check icon is shown for `pass` and for no other status. */
  function StatusIcon(status: string): (r: string)
    ensures r == CheckIcon <==> status == "pass"
    ensures r == CrossIcon <==> status != "pass"
  {
    IconsDiffer();
    if status == "pass" then CheckIcon else CrossIcon
  }

  // ---------------------------------------------------------------------------
  // HTML escaping
  // ---------------------------------------------------------------------------

  /** `s.replace(/c/g, r)`: every occurrence of `c` replaced by `r`, left to right. */
  function ReplaceAll(s: string, c: char, r: string): (t: string)
    ensures c !in s ==> t == s
  {
    if |s| == 0 then ""
    else (if s[0] == c then r else [s[0]]) + ReplaceAll(s[1..], c, r)
  }

  lemma {:induction false} ReplaceAllAppend(a: string, b: string, c: char, r: string)
    ensures ReplaceAll(a + b, c, r) == ReplaceAll(a, c, r) + ReplaceAll(b, c, r)
  {
    if |a| == 0 {
      assert a + b == b;
    } else {
      assert (a + b)[1..] == a[1..] + b;
      ReplaceAllAppend(a[1..], b, c, r);
    }
  }

  /**
   * `(text || '')` followed by the four replacements in the source's order:
   * `&` first, so that the ampersands the later passes introduce are not
   * escaped again. A missing text is `None`; the empty string is falsy too
   * and escapes to itself.
   */
  function EscapeHtml(text: Option<string>): (r: string)
    ensures text.None? ==> r == ""
  {
    var s := if text.Some? then text.value else "";
    Quote(Gt(Lt(Amp(s))))
  }

  function Amp(s: string): string { ReplaceAll(s, '&', "&amp;") }
  function Lt(s: string): string { ReplaceAll(s, '<', "&lt;") }
  function Gt(s: string): string { ReplaceAll(s, '>', "&gt;") }
  function Quote(s: string): string { ReplaceAll(s, '"', "&quot;") }

  /** The entity one character escapes to, or the character itself. */
  function EscapeChar(c: char): (r: string)
    ensures |r| >= 1
  {
    match c
    case '&' => "&amp;"
    case '<' => "&lt;"
    case '>' => "&gt;"
    case '"' => "&quot;"
    case _ => [c]
  }

  /** The reference escaper: one pass, each character replaced by its escape. */
  function Escaped(s: string): (r: string)
  {
    if |s| == 0 then "" else EscapeChar(s[0]) + Escaped(s[1..])
  }

  predicate IsSpecial(c: char) { c == '&' || c == '<' || c == '>' || c == '"' }

  /** A pass over one character replaces it or keeps it. */
  lemma ReplaceOne(x: char, c: char, r: string)
    ensures ReplaceAll([x], c, r) == if x == c then r else [x]
  {
    assert [x][1..] == "";
  }

  lemma AmpPasses()
    ensures Quote(Gt(Lt(Amp("&")))) == "&amp;"
  {
    ReplaceOne('&', '&', "&amp;");
    assert '<' !in "&amp;" && '>' !in "&amp;" && '"' !in "&amp;";
  }

  lemma LtPasses()
    ensures Quote(Gt(Lt(Amp("<")))) == "&lt;"
  {
    ReplaceOne('<', '&', "&amp;");
    ReplaceOne('<', '<', "&lt;");
    assert '>' !in "&lt;" && '"' !in "&lt;";
  }

  lemma GtPasses()
    ensures Quote(Gt(Lt(Amp(">")))) == "&gt;"
  {
    ReplaceOne('>', '&', "&amp;");
    ReplaceOne('>', '<', "&lt;");
    ReplaceOne('>', '>', "&gt;");
    assert '"' !in "&gt;";
  }

  lemma QuotePasses()
    ensures Quote(Gt(Lt(Amp("\"")))) == "&quot;"
  {
    ReplaceOne('"', '&', "&amp;");
    ReplaceOne('"', '<', "&lt;");
    ReplaceOne('"', '>', "&gt;");
    ReplaceOne('"', '"', "&quot;");
  }

  /** The four passes, applied to one character, give that character's escape. */
  lemma EscapeOneChar(c: char)
    ensures Quote(Gt(Lt(Amp([c])))) == EscapeChar(c)
  {
    if c == '&' {
      AmpPasses();
    } else if c == '<' {
      LtPasses();
    } else if c == '>' {
      GtPasses();
    } else if c == '"' {
      QuotePasses();
    } else {
      ReplaceOne(c, '&', "&amp;");
      ReplaceOne(c, '<', "&lt;");
      ReplaceOne(c, '>', "&gt;");
      ReplaceOne(c, '"', "&quot;");
    }
  }

  /** The four chained passes escape exactly as the one-pass reference escaper. */
  lemma {:induction false} EscapeHtmlIsEscaped(s: string)
    ensures EscapeHtml(Some(s)) == Escaped(s)
  {
    if |s| > 0 {
      var c, rest := [s[0]], s[1..];
      assert s == c + rest;
      ReplaceAllAppend(c, rest, '&', "&amp;");
      ReplaceAllAppend(Amp(c), Amp(rest), '<', "&lt;");
      ReplaceAllAppend(Lt(Amp(c)), Lt(Amp(rest)), '>', "&gt;");
      ReplaceAllAppend(Gt(Lt(Amp(c))), Gt(Lt(Amp(rest))), '"', "&quot;");
      EscapeOneChar(s[0]);
      EscapeHtmlIsEscaped(rest);
    }
  }

  lemma {:induction false} EscapedAppend(a: string, b: string)
    ensures Escaped(a + b) == Escaped(a) + Escaped(b)
  {
    if |a| == 0 {
      assert a + b == b;
    } else {
      assert (a + b)[1..] == a[1..] + b;
      EscapedAppend(a[1..], b);
    }
  }

  /** The escaped text holds no `<`, `>` or `"`. */
  lemma {:induction false} EscapedIsSafe(s: string)
    ensures '<' !in Escaped(s) && '>' !in Escaped(s) && '"' !in Escaped(s)
  {
    if |s| > 0 {
      EscapedIsSafe(s[1..]);
      var e := EscapeChar(s[0]);
      assert '<' !in e && '>' !in e && '"' !in e;
    }
  }

  lemma EscapeHtmlIsSafe(text: Option<string>)
    ensures '<' !in EscapeHtml(text) && '>' !in EscapeHtml(text) && '"' !in EscapeHtml(text)
  {
    var s := if text.Some? then text.value else "";
    EscapeHtmlIsEscaped(s);
    EscapedIsSafe(s);
  }

  /** `&` begins one of the four entities at position `i` of `t`. */
  predicate EntityAt(t: string, i: nat) {
    OccursAt(t, "&amp;", i) || OccursAt(t, "&lt;", i) || OccursAt(t, "&gt;", i) || OccursAt(t, "&quot;", i)
  }

  lemma OccursShift(e: string, t: string, n: string, j: nat)
    requires OccursAt(t, n, j)
    ensures OccursAt(e + t, n, |e| + j)
  {
    assert (e + t)[|e| + j..|e| + j + |n|] == t[j..j + |n|];
  }

  /** An entity of `t` is still an entity once `e` is put in front of `t`. */
  lemma EntityShift(e: string, t: string, j: nat)
    requires j < |t| && EntityAt(t, j)
    ensures EntityAt(e + t, |e| + j)
  {
    if OccursAt(t, "&amp;", j) {
      OccursShift(e, t, "&amp;", j);
    } else if OccursAt(t, "&lt;", j) {
      OccursShift(e, t, "&lt;", j);
    } else if OccursAt(t, "&gt;", j) {
      OccursShift(e, t, "&gt;", j);
    } else {
      OccursShift(e, t, "&quot;", j);
    }
  }

  /** An escape that begins with `&` is a whole entity. */
  lemma EntityFront(c: char, t: string)
    requires EscapeChar(c)[0] == '&'
    ensures EntityAt(EscapeChar(c) + t, 0)
  {
    var e := EscapeChar(c);
    assert (e + t)[..|e|] == e;
  }

  /** Every ampersand of the escaped text opens an entity. */
  lemma {:induction false} AmpersandsOpenEntities(s: string)
    ensures forall i :: 0 <= i < |Escaped(s)| && Escaped(s)[i] == '&' ==> EntityAt(Escaped(s), i)
  {
    if |s| > 0 {
      AmpersandsOpenEntities(s[1..]);
      var e, t := EscapeChar(s[0]), Escaped(s[1..]);
      assert Escaped(s) == e + t;
      forall i | 0 <= i < |e + t| && (e + t)[i] == '&'
        ensures EntityAt(e + t, i)
      {
        if i < |e| {
          assert i == 0;
          EntityFront(s[0], t);
        } else {
          assert t[i - |e|] == '&';
          EntityShift(e, t, i - |e|);
        }
      }
    }
  }

  lemma EscapeHtmlEntities(text: Option<string>)
    ensures forall i :: 0 <= i < |EscapeHtml(text)| && EscapeHtml(text)[i] == '&' ==> EntityAt(EscapeHtml(text), i)
  {
    var s := if text.Some? then text.value else "";
    EscapeHtmlIsEscaped(s);
    AmpersandsOpenEntities(s);
  }

  /** The decoding a browser applies to the four entities the escaper writes. */
  function Unescape(t: string): (s: string)
    decreases |t|
  {
    if |t| == 0 then ""
    else if StartsWith(t, "&amp;") then "&" + Unescape(t[5..])
    else if StartsWith(t, "&lt;") then "<" + Unescape(t[4..])
    else if StartsWith(t, "&gt;") then ">" + Unescape(t[4..])
    else if StartsWith(t, "&quot;") then "\"" + Unescape(t[6..])
    else [t[0]] + Unescape(t[1..])
  }

  /** `t` cannot start with `p` when their second characters differ. */
  lemma SecondCharDiffers(t: string, p: string)
    requires 1 < |t| && 1 < |p| && t[1] != p[1]
    ensures !StartsWith(t, p)
  {
    if |p| <= |t| {
      assert t[..|p|][1] == t[1];
    }
  }

  lemma UnescapeAmp(rest: string)
    ensures Unescape("&amp;" + rest) == "&" + Unescape(rest)
  {
    var t := "&amp;" + rest;
    assert t[..5] == "&amp;" && t[5..] == rest;
  }

  lemma UnescapeLt(rest: string)
    ensures Unescape("&lt;" + rest) == "<" + Unescape(rest)
  {
    var t := "&lt;" + rest;
    assert t[1] == 'l';
    SecondCharDiffers(t, "&amp;");
    assert t[..4] == "&lt;" && t[4..] == rest;
  }

  lemma UnescapeGt(rest: string)
    ensures Unescape("&gt;" + rest) == ">" + Unescape(rest)
  {
    var t := "&gt;" + rest;
    assert t[1] == 'g';
    SecondCharDiffers(t, "&amp;");
    SecondCharDiffers(t, "&lt;");
    assert t[..4] == "&gt;" && t[4..] == rest;
  }

  lemma UnescapeQuot(rest: string)
    ensures Unescape("&quot;" + rest) == "\"" + Unescape(rest)
  {
    var t := "&quot;" + rest;
    assert t[1] == 'q';
    SecondCharDiffers(t, "&amp;");
    SecondCharDiffers(t, "&lt;");
    SecondCharDiffers(t, "&gt;");
    assert t[..6] == "&quot;" && t[6..] == rest;
  }

  lemma UnescapePlainChar(c: char, rest: string)
    requires c != '&'
    ensures Unescape([c] + rest) == [c] + Unescape(rest)
  {
    var t := [c] + rest;
    assert t[0] == c && t[1..] == rest;
  }

  /** Unescaping the escape of one character gives back that character. */
  lemma UnescapeStep(c: char, rest: string)
    ensures Unescape(EscapeChar(c) + rest) == [c] + Unescape(rest)
  {
    if c == '&' {
      UnescapeAmp(rest);
    } else if c == '<' {
      UnescapeLt(rest);
    } else if c == '>' {
      UnescapeGt(rest);
    } else if c == '"' {
      UnescapeQuot(rest);
    } else {
      UnescapePlainChar(c, rest);
    }
  }

  /** Unescaping undoes the escaper: the escaped text decodes to the input. */
  lemma {:induction false} UnescapeEscaped(s: string)
    ensures Unescape(Escaped(s)) == s
  {
    if |s| > 0 {
      UnescapeStep(s[0], Escaped(s[1..]));
      UnescapeEscaped(s[1..]);
      assert s == [s[0]] + s[1..];
    }
  }

  lemma EscapeHtmlRoundTrip(s: string)
    ensures Unescape(EscapeHtml(Some(s))) == s
  {
    EscapeHtmlIsEscaped(s);
    UnescapeEscaped(s);
  }

  /** A text with none of the four special characters is returned unchanged. */
  lemma {:induction false} EscapedPlain(s: string)
    requires forall k :: 0 <= k < |s| ==> !IsSpecial(s[k])
    ensures Escaped(s) == s
  {
    if |s| > 0 {
      assert !IsSpecial(s[0]);
      EscapedPlain(s[1..]);
      assert s == [s[0]] + s[1..];
    }
  }

  lemma EscapeHtmlPlain(text: Option<string>)
    requires text.Some? ==> forall k :: 0 <= k < |text.value| ==> !IsSpecial(text.value[k])
    ensures EscapeHtml(text) == (if text.Some? then text.value else "")
  {
    if text.Some? {
      EscapeHtmlIsEscaped(text.value);
      EscapedPlain(text.value);
    }
  }

  /** Escaping lengthens a text by 4, 3, 3 and 5 for each `&`, `<`, `>` and `"`. */
  lemma {:induction false} EscapedLength(s: string)
    ensures |Escaped(s)| >= |s|
    ensures |Escaped(s)| == |s| <==> forall k :: 0 <= k < |s| ==> !IsSpecial(s[k])
  {
    if |s| > 0 {
      EscapedLength(s[1..]);
      assert forall k :: 1 <= k < |s| ==> s[k] == s[1..][k - 1];
    }
  }
}
