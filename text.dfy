/** The Option type used for the source's `undefined`/`null` values. */
module Wrappers {
  datatype Option<+T> = None | Some(value: T)
}

/**
 * String helpers with JavaScript semantics: the `\s` character class and
 * `String.prototype.trim`, `slice`, `join`, `includes`, `split` on the
 * three regular expressions the parsers use, ASCII case mapping and
 * decimal rendering of numbers (template-literal `${n}`).
 */
module Text {
  import opened Wrappers

  // ---------------------------------------------------------------------------
  // Character classes
  // ---------------------------------------------------------------------------

  /** JavaScript's line terminators (what `.` does not match). */
  predicate IsLineTerminator(c: char) {
    c == '\n' || c == '\r' || c == '\U{2028}' || c == '\U{2029}'
  }

  /** JavaScript's `\s`: WhiteSpace and LineTerminator code points; also what `trim` removes. */
  predicate IsWhitespace(c: char) {
    || c == '\t' || c == '\U{B}' || c == '\U{C}' || c == ' ' || c == '\U{A0}'
    || c == '\U{1680}' || ('\U{2000}' <= c <= '\U{200A}') || c == '\U{202F}' || c == '\U{205F}'
    || c == '\U{3000}' || c == '\U{FEFF}'
    || IsLineTerminator(c)
  }

  predicate AllWhitespace(s: string) {
    forall i :: 0 <= i < |s| ==> IsWhitespace(s[i])
  }

  predicate IsDigit(c: char) { '0' <= c <= '9' }
  predicate IsUpperAZ(c: char) { 'A' <= c <= 'Z' }
  predicate IsLowerAZ(c: char) { 'a' <= c <= 'z' }

  /** `toUpperCase` restricted to ASCII letters. */
  function ToUpperChar(c: char): (r: char)
    ensures IsLowerAZ(c) ==> IsUpperAZ(r)
    ensures !IsLowerAZ(c) ==> r == c
  {
    if IsLowerAZ(c) then (c as int - 32) as char else c
  }

  /** `toLowerCase` restricted to ASCII letters. */
  function ToLowerChar(c: char): (r: char)
    ensures IsUpperAZ(c) ==> IsLowerAZ(r)
    ensures !IsUpperAZ(c) ==> r == c
  {
    if IsUpperAZ(c) then (c as int + 32) as char else c
  }

  function ToUpper(s: string): (r: string)
    ensures |r| == |s|
    ensures forall i :: 0 <= i < |s| ==> r[i] == ToUpperChar(s[i])
  {
    seq(|s|, i requires 0 <= i < |s| => ToUpperChar(s[i]))
  }

  function ToLower(s: string): (r: string)
    ensures |r| == |s|
    ensures forall i :: 0 <= i < |s| ==> r[i] == ToLowerChar(s[i])
  {
    seq(|s|, i requires 0 <= i < |s| => ToLowerChar(s[i]))
  }

  /** `s === s.toUpperCase()`: the text contains no lower-case (ASCII) letter. */
  predicate IsAllCaps(s: string)
  {
    s == ToUpper(s)
  }

  lemma AllCapsIffNoLower(s: string)
    ensures IsAllCaps(s) <==> forall i :: 0 <= i < |s| ==> !IsLowerAZ(s[i])
  {
    if !IsAllCaps(s) {
      var i :| 0 <= i < |s| && s[i] != ToUpper(s)[i];
      assert IsLowerAZ(s[i]);
    }
  }

  /** `/^kw\s+/i`: the text opens with the keyword, in any case, and whitespace. */
  predicate OpensWith(text: string, kw: string)
  {
    |kw| < |text| && ToUpper(text[..|kw|]) == kw && IsWhitespace(text[|kw|])
  }

  /** `text === text.toUpperCase() && text.length < 80 && text.length > 3`. */
  predicate ShortAllCaps(text: string)
  {
    IsAllCaps(text) && 3 < |text| < 80
  }

  // ---------------------------------------------------------------------------
  // trim
  // ---------------------------------------------------------------------------

  /** `trimStart`: drops the leading whitespace. */
  function TrimStart(s: string): (r: string)
    ensures |r| <= |s|
  {
    if |s| > 0 && IsWhitespace(s[0]) then TrimStart(s[1..]) else s
  }

  /** `trimEnd`: drops the trailing whitespace. */
  function TrimEnd(s: string): (r: string)
    ensures |r| <= |s|
  {
    if |s| > 0 && IsWhitespace(s[|s| - 1]) then TrimEnd(s[..|s| - 1]) else s
  }

  /** What `TrimStart` drops is whitespace, and what it keeps is a suffix that does not start with whitespace. */
  lemma {:induction false} TrimStartSpec(s: string)
    ensures var r := TrimStart(s);
      r == s[|s| - |r|..] && AllWhitespace(s[..|s| - |r|]) && (r == [] || !IsWhitespace(r[0]))
    decreases |s|
  {
    if |s| > 0 && IsWhitespace(s[0]) {
      TrimStartSpec(s[1..]);
      var r := TrimStart(s[1..]);
      assert s[..|s| - |r|] == [s[0]] + s[1..][..|s[1..]| - |r|];
    }
  }

  /** What `TrimEnd` drops is whitespace, and what it keeps is a prefix that does not end with whitespace. */
  lemma {:induction false} TrimEndSpec(s: string)
    ensures var r := TrimEnd(s);
      r == s[..|r|] && AllWhitespace(s[|r|..]) && (r == [] || !IsWhitespace(r[|r| - 1]))
    decreases |s|
  {
    if |s| > 0 && IsWhitespace(s[|s| - 1]) {
      TrimEndSpec(s[..|s| - 1]);
      var r := TrimEnd(s[..|s| - 1]);
      assert s[|r|..] == s[..|s| - 1][|r|..] + [s[|s| - 1]];
    }
  }

  /** No leading and no trailing whitespace. */
  predicate IsTrimmed(s: string) {
    s == [] || (!IsWhitespace(s[0]) && !IsWhitespace(s[|s| - 1]))
  }

  /** `String.prototype.trim`. */
  function Trim(s: string): (r: string)
    ensures |r| <= |s|
  {
    TrimEnd(TrimStart(s))
  }

  /** Trimming leaves a text with no leading or trailing whitespace. */
  lemma TrimIsTrimmed(s: string)
    ensures IsTrimmed(Trim(s))
  {
    var a := TrimStart(s);
    TrimStartSpec(s);
    TrimEndSpec(a);
    var r := TrimEnd(a);
    assert r != [] ==> r[0] == a[0];
  }

  lemma TrimOfTrimmed(s: string)
    requires IsTrimmed(s)
    ensures Trim(s) == s
  {
  }

  /** `!s.trim()`: trimming leaves nothing exactly when every character is whitespace. */
  lemma TrimEmpty(s: string)
    ensures Trim(s) == "" <==> AllWhitespace(s)
  {
    var a := TrimStart(s);
    var r := TrimEnd(a);
    TrimStartSpec(s);
    TrimEndSpec(a);
    if AllWhitespace(s) {
      AllWhitespaceTrimStart(s);
    }
    if r == [] {
      assert a[|r|..] == a;
      assert s == s[..|s| - |a|] + a;
    }
  }

  lemma {:induction false} AllWhitespaceTrimStart(s: string)
    requires AllWhitespace(s)
    ensures TrimStart(s) == []
    decreases |s|
  {
    if |s| > 0 {
      AllWhitespaceTrimStart(s[1..]);
    }
  }

  // ---------------------------------------------------------------------------
  // slice, join, includes, prefixes
  // ---------------------------------------------------------------------------

  function Min(a: int, b: int): int { if a <= b then a else b }
  function Max(a: int, b: int): int { if a <= b then b else a }

  /** `s.slice(from, to)` for non-negative arguments: clamped to the string, empty when `to <= from`. */
  function Slice(s: string, from: nat, to: nat): (r: string)
    ensures from <= to <= |s| ==> r == s[from..to]
    ensures to <= from ==> r == []
  {
    var a := Min(from, |s|);
    var b := Max(a, Min(to, |s|));
    s[a..b]
  }

  /** Extending a slice by the next element. */
  lemma SliceSnoc<T>(s: seq<T>, a: nat, b: nat)
    requires a <= b < |s|
    ensures s[a..b] + [s[b]] == s[a..b + 1]
  {
  }

  /** `parts.join(sep)`. */
  function Join(parts: seq<string>, sep: string): (r: string)
    ensures |parts| == 1 ==> r == parts[0]
    ensures |parts| == 0 ==> r == []
  {
    if |parts| == 0 then []
    else if |parts| == 1 then parts[0]
    else Join(parts[..|parts| - 1], sep) + sep + parts[|parts| - 1]
  }

  lemma JoinSnoc(parts: seq<string>, p: string, sep: string)
    requires |parts| > 0
    ensures Join(parts + [p], sep) == Join(parts, sep) + sep + p
  {
    assert (parts + [p])[..|parts|] == parts;
  }

  /** `hay.includes(needle)`. */
  predicate Contains(hay: string, needle: string) {
    exists i | 0 <= i <= |hay| - |needle| :: OccursAt(hay, needle, i)
  }

  predicate OccursAt(hay: string, needle: string, i: nat) {
    i + |needle| <= |hay| && hay[i..i + |needle|] == needle
  }

  predicate StartsWith(s: string, prefix: string) {
    |prefix| <= |s| && s[..|prefix|] == prefix
  }

  predicate EndsWith(s: string, suffix: string) {
    |suffix| <= |s| && s[|s| - |suffix|..] == suffix
  }

  /**
   * `s.substring(0, maxLength - 3) + '...'` when `s` is longer than `maxLength`,
   * otherwise `s` (the quote and label truncation of the annotator and the
   * clause map).
   */
  function Truncate(s: string, maxLength: int): (r: string)
    ensures |s| <= maxLength ==> r == s
    ensures |s| > maxLength ==> EndsWith(r, "...") && StartsWith(s, r[..|r| - 3])
    ensures maxLength >= 3 ==> |r| <= maxLength
    ensures |s| > maxLength >= 3 ==> |r| == maxLength
  {
    if |s| <= maxLength then s
    else s[..Max(0, maxLength - 3)] + "..."
  }

  // ---------------------------------------------------------------------------
  // Digits and decimal rendering
  // ---------------------------------------------------------------------------

  /** The number of consecutive decimal digits of `s` starting at `i`. */
  function DigitRun(s: string, i: nat): (n: nat)
    requires i <= |s|
    ensures i + n <= |s|
    ensures forall k :: i <= k < i + n ==> IsDigit(s[k])
    ensures i + n == |s| || !IsDigit(s[i + n])
    decreases |s| - i
  {
    if i < |s| && IsDigit(s[i]) then 1 + DigitRun(s, i + 1) else 0
  }

  function DigitChar(d: nat): (c: char)
    requires d < 10
    ensures IsDigit(c) && c as int - '0' as int == d
  {
    ('0' as int + d) as char
  }

  /** Decimal rendering of a natural number, as a template literal prints it. */
  function NatToString(n: nat): (r: string)
    ensures |r| >= 1
    ensures forall i :: 0 <= i < |r| ==> IsDigit(r[i])
    ensures r[0] == '0' ==> n == 0
    decreases n
  {
    if n < 10 then [DigitChar(n)] else NatToString(n / 10) + [DigitChar(n % 10)]
  }

  /** Decimal rendering of an integer, with a leading `-` for negatives. */
  function IntToString(i: int): string
  {
    if i >= 0 then NatToString(i) else "-" + NatToString(-i)
  }

  /** Distinct numbers render differently: the decimal rendering is injective. */
  lemma {:induction false} NatToStringInjective(a: nat, b: nat)
    requires NatToString(a) == NatToString(b)
    ensures a == b
    decreases a
  {
    var ra, rb := NatToString(a), NatToString(b);
    if a < 10 && b < 10 {
      assert ra[0] == DigitChar(a) && rb[0] == DigitChar(b);
    } else if a >= 10 && b >= 10 {
      assert ra[|ra| - 1] == DigitChar(a % 10);
      assert rb[|rb| - 1] == DigitChar(b % 10);
      assert ra[..|ra| - 1] == NatToString(a / 10);
      assert rb[..|rb| - 1] == NatToString(b / 10);
      NatToStringInjective(a / 10, b / 10);
    }
  }

  // ---------------------------------------------------------------------------
  // split on a regular expression
  // ---------------------------------------------------------------------------

  /** The three separators the source splits on. */
  datatype Separator =
    | BlankLines             // /\n\n+/
    | BlankLinesOrFormFeed   // /\n\s*\n|\f/
    | WhitespaceRun          // /\s+/

  /** The first index at or after `j` that holds no whitespace (or `|s|`). */
  function WhitespaceRunEnd(s: string, j: nat): (e: nat)
    requires j <= |s|
    ensures j <= e <= |s| && AllWhitespace(s[j..e])
    ensures e == |s| || !IsWhitespace(s[e])
    decreases |s| - j
  {
    if j < |s| && IsWhitespace(s[j]) then
      var e := WhitespaceRunEnd(s, j + 1);
      assert s[j..e] == [s[j]] + s[j + 1..e];
      e
    else j
  }

  /** The first index at or after `j` that holds no `'\n'` (or `|s|`). */
  function NewlineRunEnd(s: string, j: nat): (e: nat)
    requires j <= |s|
    ensures j <= e <= |s| && (forall k :: j <= k < e ==> s[k] == '\n')
    ensures e == |s| || s[e] != '\n'
    decreases |s| - j
  {
    if j < |s| && s[j] == '\n' then NewlineRunEnd(s, j + 1) else j
  }

  /** The largest `k` with `lo <= k < hi` and `s[k] == '\n'`, if any. */
  function LastNewline(s: string, lo: nat, hi: nat): (k: Option<nat>)
    requires lo <= hi <= |s|
    ensures k.Some? ==> lo <= k.value < hi && s[k.value] == '\n'
    ensures k.Some? ==> forall j :: k.value < j < hi ==> s[j] != '\n'
    ensures k.None? ==> forall j :: lo <= j < hi ==> s[j] != '\n'
    decreases hi - lo
  {
    if hi == lo then None
    else if s[hi - 1] == '\n' then Some(hi - 1)
    else LastNewline(s, lo, hi - 1)
  }

  /** Whether a match of the separator starts at `i` (the regular expression, stated on characters). */
  predicate SeparatorAt(sep: Separator, s: string, i: nat)
    requires i < |s|
  {
    match sep
    case BlankLines => i + 1 < |s| && s[i] == '\n' && s[i + 1] == '\n'
    case BlankLinesOrFormFeed =>
      || s[i] == '\U{C}'
      || (s[i] == '\n' && exists k | i < k < |s| :: s[k] == '\n' && AllWhitespace(s[i + 1..k]))
    case WhitespaceRun => IsWhitespace(s[i])
  }

  /** Where the (greedy) match of the separator that starts at `i` ends. */
  function SeparatorEnd(sep: Separator, s: string, i: nat): (e: nat)
    requires i < |s| && SeparatorAt(sep, s, i)
    ensures i < e <= |s|
  {
    match sep
    case BlankLines => NewlineRunEnd(s, i + 1)
    case BlankLinesOrFormFeed =>
      if s[i] == '\n' then
        var w := WhitespaceRunEnd(s, i + 1);
        var k :| i < k < |s| && s[k] == '\n' && AllWhitespace(s[i + 1..k]);
        assert k < w;
        match LastNewline(s, i + 1, w)
        case Some(last) => last + 1
        case None => assert s[k] == '\n'; i + 1
      else i + 1
    case WhitespaceRun => WhitespaceRunEnd(s, i)
  }

  /** A separator found inside a slice of `s` is a separator of `s` at the same place. */
  lemma SeparatorInSlice(sep: Separator, s: string, a: nat, b: nat, q: nat)
    requires a <= b <= |s| && q < b - a
    requires SeparatorAt(sep, s[a..b], q)
    ensures SeparatorAt(sep, s, a + q)
  {
    var t := s[a..b];
    if sep.BlankLinesOrFormFeed? && t[q] == '\n' && t[q] != '\U{C}' {
      var k :| q < k < |t| && t[k] == '\n' && AllWhitespace(t[q + 1..k]);
      var w := s[a + q + 1..a + k];
      forall j | 0 <= j < |w| ensures IsWhitespace(w[j]) {
        assert w[j] == t[q + 1..k][j];
      }
      assert s[a + k] == '\n';
    }
  }

  /** No separator starts anywhere in `s[a..b]`. */
  predicate SeparatorFree(sep: Separator, s: string, a: nat, b: nat)
    requires a <= b <= |s|
  {
    forall q :: a <= q < b ==> !SeparatorAt(sep, s, q)
  }

  /** A piece of a split contains no separator. */
  predicate NoSeparator(sep: Separator, p: string) {
    forall q :: 0 <= q < |p| ==> !SeparatorAt(sep, p, q)
  }

  lemma SeparatorFreeSlice(sep: Separator, s: string, a: nat, b: nat)
    requires a <= b <= |s| && SeparatorFree(sep, s, a, b)
    ensures NoSeparator(sep, s[a..b])
  {
    forall q | 0 <= q < b - a ensures !SeparatorAt(sep, s[a..b], q) {
      if SeparatorAt(sep, s[a..b], q) { SeparatorInSlice(sep, s, a, b, q); }
    }
  }

  /**
   * `s.split(re)`: the pieces between the leftmost matches of the separator.
   * `partStart` is where the current piece began, `i` the next position to try.
   */
  function SplitFrom(s: string, sep: Separator, partStart: nat, i: nat): (parts: seq<string>)
    requires partStart <= i <= |s| && SeparatorFree(sep, s, partStart, i)
    ensures |parts| >= 1
    decreases |s| - i
  {
    if i == |s| then [s[partStart..i]]
    else if SeparatorAt(sep, s, i) then
      var e := SeparatorEnd(sep, s, i);
      [s[partStart..i]] + SplitFrom(s, sep, e, e)
    else
      SplitFrom(s, sep, partStart, i + 1)
  }

  lemma {:induction false} SplitFromPieces(s: string, sep: Separator, partStart: nat, i: nat)
    requires partStart <= i <= |s| && SeparatorFree(sep, s, partStart, i)
    ensures forall p :: p in SplitFrom(s, sep, partStart, i) ==> NoSeparator(sep, p)
    decreases |s| - i
  {
    if i == |s| {
      SeparatorFreeSlice(sep, s, partStart, i);
    } else if SeparatorAt(sep, s, i) {
      SeparatorFreeSlice(sep, s, partStart, i);
      var e := SeparatorEnd(sep, s, i);
      SplitFromPieces(s, sep, e, e);
    } else {
      SplitFromPieces(s, sep, partStart, i + 1);
    }
  }

  /** `s.split(re)`: the pieces between the leftmost matches of the separator. */
  function Split(s: string, sep: Separator): (parts: seq<string>)
    ensures |parts| >= 1
  {
    SplitFrom(s, sep, 0, 0)
  }

  /** No piece of a split contains the separator. */
  lemma SplitPieces(s: string, sep: Separator)
    ensures forall p :: p in Split(s, sep) ==> NoSeparator(sep, p)
  {
    SplitFromPieces(s, sep, 0, 0);
  }

  /** The non-empty pieces of a split (`.filter(w => w.length > 0)`), in order. */
  function NonEmptyParts(parts: seq<string>): (r: seq<string>)
    ensures |r| <= |parts|
    ensures forall p :: p in r ==> p in parts && p != ""
  {
    if |parts| == 0 then [] else (if parts[0] != "" then [parts[0]] else []) + NonEmptyParts(parts[1..])
  }

  /** The words of `s`: `s.split(/\s+/).filter(w => w.length > 0)`. */
  function Words(s: string): seq<string>
  {
    NonEmptyParts(Split(s, WhitespaceRun))
  }

  /** A word is non-empty and holds no whitespace. */
  lemma WordsAreWords(s: string)
    ensures forall w :: w in Words(s) ==> w != "" && forall i :: 0 <= i < |w| ==> !IsWhitespace(w[i])
  {
    SplitPieces(s, WhitespaceRun);
    forall w | w in Words(s) ensures forall i :: 0 <= i < |w| ==> !IsWhitespace(w[i]) {
      assert NoSeparator(WhitespaceRun, w);
      forall i | 0 <= i < |w| ensures !IsWhitespace(w[i]) {
        assert !SeparatorAt(WhitespaceRun, w, i);
      }
    }
  }
}
