/**
 * The few JavaScript string built-ins the editor relies on, written out over `seq<char>`:
 * `indexOf`, `includes`, `split(p)[1]`, `split(c).pop()`, `replace`, `replaceAll`,
 * `toLowerCase`, number-to-string conversion and `Number.parseInt`.
 */
module JsStrings {
  import opened Wrappers

  /** `pat` occurs in `s` starting at index `i`. */
  predicate OccursAt(s: string, pat: string, i: nat) {
    i + |pat| <= |s| && s[i..i + |pat|] == pat
  }

  /** Each character of an occurrence is the pattern's. */
  lemma OccurrenceChar(s: string, pat: string, i: nat, k: nat)
    requires OccursAt(s, pat, i) && k < |pat|
    ensures s[i + k] == pat[k]
  {
    assert s[i..i + |pat|][k] == pat[k];
  }

  /** `s.indexOf(pat, from)`, with `None` for JavaScript's `-1`. */
  function IndexOf(s: string, pat: string, from: nat): (r: Option<nat>)
    ensures r.Some? ==> from <= r.value && OccursAt(s, pat, r.value)
    ensures r.Some? ==> forall j :: from <= j < r.value ==> !OccursAt(s, pat, j)
    ensures r.None? ==> forall j: nat :: from <= j ==> !OccursAt(s, pat, j)
    decreases |s| - from
  {
    if from + |pat| > |s| then None
    else if s[from..from + |pat|] == pat then Some(from)
    else IndexOf(s, pat, from + 1)
  }

  /** `s.includes(pat)`. */
  predicate Includes(s: string, pat: string) {
    IndexOf(s, pat, 0).Some?
  }

  /**
   * `seg` is the second piece of `s` split at `pat`: the first occurrence of `pat` starts at
   * `i`, and `seg` runs from its end up to the next occurrence or to the end of `s`.
   */
  predicate FirstSegmentAt(s: string, pat: string, i: nat, seg: string) {
    && OccursAt(s, pat, i)
    && (forall j: nat | j < i :: !OccursAt(s, pat, j))
    && i + |pat| + |seg| <= |s|
    && s[i + |pat|..i + |pat| + |seg|] == seg
    && (forall j: nat | i + |pat| <= j < i + |pat| + |seg| :: !OccursAt(s, pat, j))
    && (i + |pat| + |seg| == |s| || OccursAt(s, pat, i + |pat| + |seg|))
  }

  /**
   * `s.split(pat)[1]` for a non-empty `pat`: the text between the first occurrence of `pat`
   * and the next one (or the end of `s`); `None` when `pat` does not occur, where JavaScript
   * would yield `undefined`.
   */
  function SegmentAfterFirst(s: string, pat: string): (r: Option<string>)
    requires |pat| > 0
    ensures r.Some? <==> Includes(s, pat)
    ensures r.Some? ==> exists i: nat :: FirstSegmentAt(s, pat, i, r.value)
  {
    match IndexOf(s, pat, 0)
    case None => None
    case Some(i) =>
      var start := i + |pat|;
      var end := IndexOf(s, pat, start).GetOr(|s|);
      assert FirstSegmentAt(s, pat, i, s[start..end]);
      Some(s[start..end])
  }

  /** At most one segment fits `FirstSegmentAt`, so it pins down `split(pat)[1]` exactly. */
  lemma FirstSegmentUnique(s: string, pat: string, i1: nat, seg1: string, i2: nat, seg2: string)
    requires FirstSegmentAt(s, pat, i1, seg1) && FirstSegmentAt(s, pat, i2, seg2)
    ensures i1 == i2 && seg1 == seg2
  {
    assert i1 < i2 ==> !OccursAt(s, pat, i1);
    assert i2 < i1 ==> !OccursAt(s, pat, i2);
    var end1: nat, end2: nat := i1 + |pat| + |seg1|, i2 + |pat| + |seg2|;
    assert |seg1| < |seg2| ==> !OccursAt(s, pat, end1);
    assert |seg2| < |seg1| ==> !OccursAt(s, pat, end2);
  }

  /**
   * When the last character of `pat` occurs neither in `pre`, nor earlier in `pat`, nor in
   * `rest`, then `pat` occurs in `pre + pat + rest` exactly once, right after `pre`.
   */
  lemma OnlyOccurrence(pre: string, pat: string, rest: string, j: nat)
    requires |pat| > 0
    requires pat[|pat| - 1] !in pre && pat[|pat| - 1] !in pat[..|pat| - 1] && pat[|pat| - 1] !in rest
    ensures OccursAt(pre + pat + rest, pat, j) <==> j == |pre|
  {
    var s := pre + pat + rest;
    var c := pat[|pat| - 1];
    assert s[|pre|..|pre| + |pat|] == pat;
    if OccursAt(s, pat, j) {
      var k := j + |pat| - 1;
      assert s[k] == s[j..j + |pat|][|pat| - 1] == c;
    }
  }

  /** Under the conditions of `OnlyOccurrence`, `(pre + pat + rest).split(pat)[1]` is `rest`. */
  lemma SegmentAfterOnlyOccurrence(pre: string, pat: string, rest: string)
    requires |pat| > 0
    requires pat[|pat| - 1] !in pre && pat[|pat| - 1] !in pat[..|pat| - 1] && pat[|pat| - 1] !in rest
    ensures SegmentAfterFirst(pre + pat + rest, pat) == Some(rest)
  {
    var s := pre + pat + rest;
    OnlyOccurrence(pre, pat, rest, |pre|);
    var first := IndexOf(s, pat, 0);
    if first.Some? {
      OnlyOccurrence(pre, pat, rest, first.value);
    }
    assert first == Some(|pre|);
    var next := IndexOf(s, pat, |pre| + |pat|);
    if next.Some? {
      OnlyOccurrence(pre, pat, rest, next.value);
    }
    assert next == None;
    assert s[|pre| + |pat|..|s|] == rest;
  }

  /** `s.replace(pat, rep)` with a string pattern: only the first occurrence is replaced
      (`rep` is taken literally; the `$` patterns of JavaScript are not modelled). */
  function Replace(s: string, pat: string, rep: string): (r: string)
    ensures !Includes(s, pat) ==> r == s
  {
    match IndexOf(s, pat, 0)
    case None => s
    case Some(i) => s[..i] + rep + s[i + |pat|..]
  }

  /** `s.replaceAll(c, d)` for one-character patterns. */
  function ReplaceAllChar(s: string, c: char, d: char): (r: string)
    ensures |r| == |s|
  {
    seq(|s|, i requires 0 <= i < |s| => if s[i] == c then d else s[i])
  }

  /** The index of the last `c` in `s`. */
  function LastIndexOfChar(s: string, c: char): (r: Option<nat>)
    ensures r.Some? ==> r.value < |s| && s[r.value] == c && c !in s[r.value + 1..]
    ensures r.None? ==> c !in s
  {
    if |s| == 0 then None
    else if s[|s| - 1] == c then Some(|s| - 1)
    else
      var r := LastIndexOfChar(s[..|s| - 1], c);
      assert s == s[..|s| - 1] + [s[|s| - 1]];
      r
  }

  /** `s.split(c).pop()`: the text after the last `c`, or all of `s` when there is none. */
  function LastSegment(s: string, c: char): (r: string)
    ensures c !in r
  {
    match LastIndexOfChar(s, c)
    case None => s
    case Some(i) => s[i + 1..]
  }

  function LowerChar(ch: char): char {
    if 'A' <= ch <= 'Z' then (ch as int + 32) as char else ch
  }

  /** `toLowerCase()` on the ASCII letters. */
  function ToLowerAscii(s: string): (r: string)
    ensures |r| == |s|
  {
    seq(|s|, i requires 0 <= i < |s| => LowerChar(s[i]))
  }

  predicate IsDigit(ch: char) {
    '0' <= ch <= '9'
  }

  function DigitChar(d: nat): char
    requires d < 10
  {
    ('0' as int + d) as char
  }

  function DigitValue(ch: char): nat
    requires IsDigit(ch)
  {
    ch as int - '0' as int
  }

  predicate AllDigits(s: string) {
    forall i :: 0 <= i < |s| ==> IsDigit(s[i])
  }

  /** The number a string of decimal digits spells. */
  function DigitsValue(ds: string): nat
    requires AllDigits(ds)
  {
    if |ds| == 0 then 0 else DigitsValue(ds[..|ds| - 1]) * 10 + DigitValue(ds[|ds| - 1])
  }

  /** `String(n)` (or `${n}`) for a non-negative integer: its shortest decimal spelling. */
  function NatToString(n: nat): (r: string)
    ensures |r| > 0 && AllDigits(r)
    ensures r[0] == '0' ==> n == 0
  {
    if n < 10 then [DigitChar(n)] else NatToString(n / 10) + [DigitChar(n % 10)]
  }

  /** Reading the decimal spelling back gives the number: `NatToString` loses nothing. */
  lemma {:induction false} NatToStringValue(n: nat)
    ensures DigitsValue(NatToString(n)) == n
  {
    if n >= 10 {
      var s := NatToString(n);
      NatToStringValue(n / 10);
      assert s[..|s| - 1] == NatToString(n / 10);
    }
  }

  /** Different numbers are spelled differently. */
  lemma NatToStringInjective(m: nat, n: nat)
    requires NatToString(m) == NatToString(n)
    ensures m == n
  {
    NatToStringValue(m);
    NatToStringValue(n);
  }

  /** The longest prefix of `s` made of decimal digits. */
  function DigitPrefix(s: string): (r: string)
    ensures AllDigits(r) && r <= s
    ensures |r| < |s| ==> !IsDigit(s[|r|])
  {
    if |s| == 0 || !IsDigit(s[0]) then [] else [s[0]] + DigitPrefix(s[1..])
  }

  lemma {:induction false} DigitPrefixOfDigits(s: string)
    requires AllDigits(s)
    ensures DigitPrefix(s) == s
  {
    if |s| > 0 {
      DigitPrefixOfDigits(s[1..]);
    }
  }

  /**
   * `Number.parseInt(s)` (radix 10) on the text of a numeric input field: an optional sign,
   * then the longest run of decimal digits; `None` (JavaScript's `NaN`) when that run is empty.
   */
  function ParseInt(s: string): (r: Option<int>)
    ensures r.None? <==> |DigitPrefix(if |s| > 0 && s[0] in "+-" then s[1..] else s)| == 0
  {
    var negative := |s| > 0 && s[0] == '-';
    var body := if |s| > 0 && s[0] in "+-" then s[1..] else s;
    var ds := DigitPrefix(body);
    if |ds| == 0 then None
    else if negative then Some(-(DigitsValue(ds) as int))
    else Some(DigitsValue(ds))
  }

  /** Parsing what `NatToString` prints gives the number back. */
  lemma ParseIntNatToString(n: nat)
    ensures ParseInt(NatToString(n)) == Some(n)
  {
    var s := NatToString(n);
    DigitPrefixOfDigits(s);
    NatToStringValue(n);
  }
}
