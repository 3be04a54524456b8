/** Text helpers shared by the query builder, the submission intake and the
    submit form: substring search, ASCII case folding, digit strings,
    splitting on a separator, lexicographic order and decimal integers. */
module Strings {
  import opened Wrappers

  // ---------------------------------------------------------------- substrings

  predicate IsPrefix(p: string, s: string) {
    |p| <= |s| && s[..|p|] == p
  }

  /** `sub` occurs in `s` at position `i`. */
  predicate OccursAt(s: string, sub: string, i: int) {
    0 <= i && i + |sub| <= |s| && s[i..i + |sub|] == sub
  }

  /** JavaScript's `s.includes(sub)`. */
  function Contains(s: string, sub: string): (r: bool)
    ensures r <==> exists i :: OccursAt(s, sub, i)
    decreases |s|
  {
    if IsPrefix(sub, s) then
      assert OccursAt(s, sub, 0);
      true
    else if |s| == 0 then
      assert forall i :: !OccursAt(s, sub, i);
      false
    else
      var r := Contains(s[1..], sub);
      assert forall i :: OccursAt(s[1..], sub, i) <==> OccursAt(s, sub, i + 1);
      assert !OccursAt(s, sub, 0);
      assert forall i :: OccursAt(s, sub, i) && 0 < i ==> OccursAt(s[1..], sub, i - 1);
      r
  }

  // ---------------------------------------------------------------- case folding

  /** ASCII lower case: 'A'..'Z' are mapped to 'a'..'z', everything else is kept. */
  function LowerChar(c: char): (r: char)
    ensures 'A' <= c <= 'Z' ==> r as int == c as int + 32
    ensures !('A' <= c <= 'Z') ==> r == c
    ensures !('A' <= r <= 'Z')
  {
    if 'A' <= c <= 'Z' then (c as int + 32) as char else c
  }

  function Lower(s: string): (r: string)
    ensures |r| == |s|
    ensures forall i :: 0 <= i < |s| ==> r[i] == LowerChar(s[i])
  {
    seq(|s|, i requires 0 <= i < |s| => LowerChar(s[i]))
  }

  /** Case-insensitive (ASCII) substring test, used to model `ILIKE '%q%'`. */
  predicate ContainsIgnoringCase(s: string, sub: string) {
    Contains(Lower(s), Lower(sub))
  }

  // ---------------------------------------------------------------- digits

  predicate IsDigit(c: char) {
    '0' <= c <= '9'
  }

  /** The regular expression `^\d+$`: one or more decimal digits and nothing else. */
  predicate AllDigits(s: string) {
    |s| > 0 && forall i :: 0 <= i < |s| ==> IsDigit(s[i])
  }

  /** The longest prefix of `s` made of digits (what a greedy `\d*` takes). */
  function DigitRun(s: string): (r: string)
    ensures IsPrefix(r, s)
    ensures forall i :: 0 <= i < |r| ==> IsDigit(r[i])
    ensures |r| < |s| ==> !IsDigit(s[|r|])
  {
    if |s| > 0 && IsDigit(s[0]) then [s[0]] + DigitRun(s[1..]) else []
  }

  function DigitValue(c: char): (r: nat)
    requires IsDigit(c)
    ensures r < 10
  {
    c as int - '0' as int
  }

  function DigitChar(d: nat): (c: char)
    requires d < 10
    ensures IsDigit(c) && DigitValue(c) == d
  {
    ('0' as int + d) as char
  }

  /** The number a string of decimal digits denotes. */
  function DecimalValue(s: string): (r: nat)
    requires forall i :: 0 <= i < |s| ==> IsDigit(s[i])
  {
    if |s| == 0 then 0 else 10 * DecimalValue(s[..|s| - 1]) + DigitValue(s[|s| - 1])
  }

  /** The decimal spelling of `n`, as JavaScript's `n.toString()` writes it. */
  function DecimalString(n: nat): (r: string)
    ensures AllDigits(r)
    ensures |r| > 1 ==> r[0] != '0'
  {
    if n < 10 then [DigitChar(n)] else DecimalString(n / 10) + [DigitChar(n % 10)]
  }

  /** `Number.parseInt(s)` on its common path: the value of the leading run of
      decimal digits, or None (NaN) when `s` does not start with a digit. */
  function ParseLeadingInt(s: string): (r: Option<nat>)
    ensures r.None? <==> (|s| == 0 || !IsDigit(s[0]))
  {
    var d := DigitRun(s);
    if |d| == 0 then None else Some(DecimalValue(d))
  }

  lemma {:induction false} DecimalValueOfString(n: nat)
    ensures DecimalValue(DecimalString(n)) == n
  {
    var s := DecimalString(n);
    if n >= 10 {
      DecimalValueOfString(n / 10);
      assert s[..|s| - 1] == DecimalString(n / 10);
    }
  }

  lemma DigitRunOfDigits(s: string)
    requires forall i :: 0 <= i < |s| ==> IsDigit(s[i])
    ensures DigitRun(s) == s
  {
  }

  /** Parsing the decimal spelling of a number gives the number back: the
      category id that the form's select writes with `toString()` is the one
      `parseInt` reads. */
  lemma ParseDecimalRoundTrip(n: nat)
    ensures ParseLeadingInt(DecimalString(n)) == Some(n)
  {
    DigitRunOfDigits(DecimalString(n));
    DecimalValueOfString(n);
  }

  // ---------------------------------------------------------------- regex match

  /** The regular expression `prefix(\d+)` matches `s` starting at `i`. */
  predicate DigitsMatchAt(s: string, prefix: string, i: int) {
    OccursAt(s, prefix, i) && i + |prefix| < |s| && IsDigit(s[i + |prefix|])
  }

  function FirstDigitsMatchFrom(s: string, prefix: string, from: nat): (r: Option<string>)
    ensures r.None? <==> forall i :: from <= i ==> !DigitsMatchAt(s, prefix, i)
    ensures r.Some? ==> (exists i :: (
      && from <= i
      && DigitsMatchAt(s, prefix, i)
      && (forall j :: from <= j < i ==> !DigitsMatchAt(s, prefix, j))
      && r.value == DigitRun(s[i + |prefix|..])))
    decreases |s| - from
  {
    if from + |prefix| >= |s| then None
    else if DigitsMatchAt(s, prefix, from) then Some(DigitRun(s[from + |prefix|..]))
    else FirstDigitsMatchFrom(s, prefix, from + 1)
  }

  /** Group 1 of JavaScript's `s.match(/prefix(\d+)/)`: the regex engine tries
      the start positions from left to right, takes the first one where the
      prefix is followed by a digit, and the greedy `\d+` takes the whole run
      of digits there (DigitRun is the longest digit prefix). */
  function MatchDigitsAfter(s: string, prefix: string): (r: Option<string>)
    ensures r.None? <==> forall i :: !DigitsMatchAt(s, prefix, i)
    ensures r.Some? ==> AllDigits(r.value)
    ensures r.Some? ==> (exists i :: (
      && DigitsMatchAt(s, prefix, i)
      && (forall j :: 0 <= j < i ==> !DigitsMatchAt(s, prefix, j))
      && r.value == DigitRun(s[i + |prefix|..])))
  {
    var r := FirstDigitsMatchFrom(s, prefix, 0);
    if r.Some? then
      var i :| (
        && 0 <= i
        && DigitsMatchAt(s, prefix, i)
        && (forall j :: 0 <= j < i ==> !DigitsMatchAt(s, prefix, j))
        && r.value == DigitRun(s[i + |prefix|..]));
      assert s[i + |prefix|..][0] == s[i + |prefix|];
      r
    else
      r
  }

  // ---------------------------------------------------------------- splitting

  /** The position of the first `c` in `s`. */
  function IndexOf(s: string, c: char): (k: nat)
    requires c in s
    ensures k < |s| && s[k] == c && c !in s[..k]
  {
    if s[0] == c then 0 else 1 + IndexOf(s[1..], c)
  }

  /** Concatenates `parts` with `sep` between neighbours (JavaScript's `join`). */
  function Join(parts: seq<string>, sep: char): string
    requires |parts| > 0
  {
    if |parts| == 1 then parts[0] else parts[0] + [sep] + Join(parts[1..], sep)
  }

  /** JavaScript's `s.split(sep)` for a one-character separator: the pieces
      between separators, including empty ones at either end. */
  function Split(s: string, sep: char): (parts: seq<string>)
    ensures |parts| > 0
    ensures forall k :: 0 <= k < |parts| ==> sep !in parts[k]
    ensures Join(parts, sep) == s
    decreases |s|
  {
    if sep !in s then [s]
    else
      var k := IndexOf(s, sep);
      var rest := Split(s[k + 1..], sep);
      assert s == s[..k] + [sep] + s[k + 1..];
      [s[..k]] + rest
  }

  /** `parts[parts.length - 1]` of `s.split(sep)`: everything after the last
      separator, or all of `s` when it has none. */
  function LastSegment(s: string, sep: char): (r: string)
    ensures sep !in r
    ensures |r| <= |s| && s[|s| - |r|..] == r
    ensures |r| < |s| ==> s[|s| - |r| - 1] == sep
  {
    var parts := Split(s, sep);
    JoinEndsWithLast(parts, sep);
    parts[|parts| - 1]
  }

  lemma {:induction false} JoinEndsWithLast(parts: seq<string>, sep: char)
    requires |parts| > 0
    ensures var j, r := Join(parts, sep), parts[|parts| - 1];
      |r| <= |j| && j[|j| - |r|..] == r && (|r| < |j| ==> j[|j| - |r| - 1] == sep)
  {
    if |parts| > 1 {
      JoinEndsWithLast(parts[1..], sep);
    }
  }

  /** The last segment is the tail that follows the last separator. */
  lemma LastSegmentIs(s: string, sep: char, tail: string)
    requires sep !in tail
    requires |tail| < |s| && s[|s| - |tail|..] == tail && s[|s| - |tail| - 1] == sep
    ensures LastSegment(s, sep) == tail
  {
  }

  /** A string that ends in the separator has an empty last segment (a tweet
      URL with a trailing slash yields an empty id). */
  lemma TrailingSeparatorGivesEmpty(s: string, sep: char)
    requires |s| > 0 && s[|s| - 1] == sep
    ensures LastSegment(s, sep) == ""
  {
  }

  // ---------------------------------------------------------------- ordering

  /** Lexicographic order on code points: `a` sorts before or with `b`. */
  predicate LexLe(a: string, b: string) {
    |a| == 0 || (|b| > 0 && (a[0] < b[0] || (a[0] == b[0] && LexLe(a[1..], b[1..]))))
  }

  lemma {:induction false} LexLeTotal(a: string, b: string)
    ensures LexLe(a, b) || LexLe(b, a)
  {
    if |a| > 0 && |b| > 0 && a[0] == b[0] {
      LexLeTotal(a[1..], b[1..]);
    }
  }

  lemma {:induction false} LexLeTransitive(a: string, b: string, c: string)
    requires LexLe(a, b) && LexLe(b, c)
    ensures LexLe(a, c)
  {
    if |a| > 0 && a[0] == b[0] && b[0] == c[0] {
      LexLeTransitive(a[1..], b[1..], c[1..]);
    }
  }
}
