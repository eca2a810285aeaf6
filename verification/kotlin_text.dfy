/** The Kotlin standard-library string operations the client relies on:
    whitespace, `trim`, `isBlank`, `startsWith`, `substringBefore`,
    `split(..)[0]`, `replace`, `contains(.., ignoreCase = true)` and
    `toIntOrNull`/`toLongOrNull`. Strings are sequences of characters, so a surrogate pair counts as one. */
module KotlinText {
  import opened Optional

  /** `Char.isWhitespace()`: Java's `Character.isWhitespace` or `Character.isSpaceChar`. */
  predicate IsWhitespace(c: char) {
    || c == ' ' || c == '\t' || c == '\n' || c == '\r'
    || c == '\U{000B}' || c == '\U{000C}'
    || ('\U{001C}' <= c <= '\U{001F}')
    || c == '\U{00A0}' || c == '\U{1680}'
    || ('\U{2000}' <= c <= '\U{200A}')
    || c == '\U{2028}' || c == '\U{2029}' || c == '\U{202F}' || c == '\U{205F}' || c == '\U{3000}'
  }

  /** `CharSequence.isBlank()`: empty or whitespace only. */
  predicate IsBlank(s: string) {
    forall i :: 0 <= i < |s| ==> IsWhitespace(s[i])
  }

  /** The number of leading whitespace characters. */
  function LeadingBlank(s: string): (i: nat)
    ensures i <= |s| && IsBlank(s[..i])
    ensures i < |s| ==> !IsWhitespace(s[i])
    decreases |s|
  {
    if |s| > 0 && IsWhitespace(s[0]) then
      var i := LeadingBlank(s[1..]) + 1;
      assert s[..i] == [s[0]] + s[1..][..i - 1];
      i
    else 0
  }

  /** Where the trailing whitespace of `s` begins, looking no further left than `i`. */
  function TrailingBlank(s: string, i: nat): (j: nat)
    requires i <= |s|
    ensures i <= j <= |s| && IsBlank(s[j..])
    ensures i < j ==> !IsWhitespace(s[j - 1])
    decreases |s|
  {
    if i < |s| && IsWhitespace(s[|s| - 1]) then
      var j := TrailingBlank(s[..|s| - 1], i);
      assert s[j..] == s[..|s| - 1][j..] + [s[|s| - 1]];
      j
    else |s|
  }

  /** `String.trim()`: `s` without its leading and trailing whitespace. */
  function Trim(s: string): (r: string)
    ensures |r| <= |s|
    ensures r == [] || (!IsWhitespace(r[0]) && !IsWhitespace(r[|r| - 1]))
    ensures IsBlank(s) <==> r == []
    ensures s == [] || (!IsWhitespace(s[0]) && !IsWhitespace(s[|s| - 1])) ==> r == s
  {
    var i := LeadingBlank(s);
    var j := TrailingBlank(s, i);
    if i == j then BlankAround(s, i); s[i..j] else s[i..j]
  }

  /** Blank on both sides of one split point means blank throughout. */
  lemma BlankAround(s: string, i: nat)
    requires i <= |s| && IsBlank(s[..i]) && IsBlank(s[i..])
    ensures IsBlank(s)
  {
    forall k | 0 <= k < |s| ensures IsWhitespace(s[k]) {
      if k < i { assert s[k] == s[..i][k]; } else { assert s[k] == s[i..][k - i]; }
    }
  }

  /** Trimming twice is trimming once. */
  lemma TrimIdempotent(s: string)
    ensures Trim(Trim(s)) == Trim(s)
  {
  }

  /** `String.startsWith(prefix)`. */
  predicate StartsWith(s: string, prefix: string) {
    |prefix| <= |s| && s[..|prefix|] == prefix
  }

  /** `substringBefore(delimiter)` for a one-character delimiter: the text
      before its first occurrence, or the whole string when it is absent. */
  function SubstringBefore(s: string, d: char): (r: string)
    ensures StartsWith(s, r)
    ensures d !in r
    ensures |r| < |s| ==> s[|r|] == d
    ensures d !in s ==> r == s
  {
    if |s| == 0 then []
    else if s[0] == d then []
    else [s[0]] + SubstringBefore(s[1..], d)
  }

  /** `split(d)[0]`: the first `d`-separated segment, which always exists. */
  function FirstSegment(s: string, d: char): string {
    SubstringBefore(s, d)
  }

  /** Whether `p` occurs in `s` starting at position `i`. */
  predicate OccursAt(s: string, p: string, i: nat) {
    i + |p| <= |s| && s[i..i + |p|] == p
  }

  /** `String.replace(p, "")`: removes every occurrence of `p`, scanning left to
      right and never re-examining text the removal brings together. */
  function RemoveAll(s: string, p: string): (r: string)
    requires |p| > 0
    ensures |r| <= |s|
    decreases |s|
  {
    if |s| == 0 then []
    else if StartsWith(s, p) then RemoveAll(s[|p|..], p)
    else [s[0]] + RemoveAll(s[1..], p)
  }

  /** Removal leaves a string with no occurrence of `p` unchanged. */
  lemma {:induction false} RemoveAllNoOccurrence(s: string, p: string)
    requires |p| > 0
    requires forall i :: 0 <= i <= |s| ==> !OccursAt(s, p, i)
    ensures RemoveAll(s, p) == s
    decreases |s|
  {
    if |s| > 0 {
      assert !OccursAt(s, p, 0);
      assert !StartsWith(s, p);
      forall i | 0 <= i <= |s[1..]| ensures !OccursAt(s[1..], p, i) {
        assert !OccursAt(s, p, i + 1);
        if i + |p| <= |s[1..]| {
          assert s[1..][i..i + |p|] == s[i + 1..i + 1 + |p|];
        }
      }
      RemoveAllNoOccurrence(s[1..], p);
    }
  }

  /** Removing `p` from `p + b`, where `b` never contains `p`, gives back `b`. */
  lemma RemoveAllPrefix(p: string, b: string)
    requires |p| > 0
    requires forall i :: 0 <= i <= |b| ==> !OccursAt(b, p, i)
    ensures RemoveAll(p + b, p) == b
  {
    assert StartsWith(p + b, p);
    assert (p + b)[|p|..] == b;
    RemoveAllNoOccurrence(b, p);
  }

  /** Uppercase of an ASCII letter; every other character maps to itself. */
  function UpperAscii(c: char): char {
    if 'a' <= c <= 'z' then (c as int - 32) as char else c
  }

  /** Lowercase of an ASCII letter; every other character maps to itself. */
  function LowerAscii(c: char): char {
    if 'A' <= c <= 'Z' then (c as int + 32) as char else c
  }

  /** `Char.equals(other, ignoreCase = true)`. */
  predicate CharEqualsIgnoreCase(a: char, b: char) {
    var ua := UpperAscii(a);
    var ub := UpperAscii(b);
    ua == ub || LowerAscii(ua) == LowerAscii(ub)
  }

  /** `regionMatches(i, p, 0, |p|, ignoreCase = true)`. */
  predicate MatchesAtIgnoreCase(s: string, p: string, i: nat) {
    i + |p| <= |s| && forall k :: 0 <= k < |p| ==> CharEqualsIgnoreCase(s[i + k], p[k])
  }

  /** The reference meaning of `contains(p, ignoreCase = true)`: `p` matches
      somewhere, ignoring case. */
  ghost predicate OccursIgnoreCase(s: string, p: string) {
    exists i: nat :: MatchesAtIgnoreCase(s, p, i)
  }

  /** The search `contains(p, ignoreCase = true)` performs, from position `from`. */
  function IndexOfIgnoreCase(s: string, p: string, from: nat): (r: Option<nat>)
    ensures r.Some? ==> from <= r.value && MatchesAtIgnoreCase(s, p, r.value)
    ensures r.None? ==> forall i: nat :: from <= i ==> !MatchesAtIgnoreCase(s, p, i)
    decreases |s| - from
  {
    if from + |p| > |s| then None
    else if MatchesAtIgnoreCase(s, p, from) then Some(from)
    else IndexOfIgnoreCase(s, p, from + 1)
  }

  /** `s.contains(p, ignoreCase = true)`. */
  predicate ContainsIgnoreCase(s: string, p: string) {
    IndexOfIgnoreCase(s, p, 0).Some?
  }

  /** The search agrees with the reference meaning in both directions. */
  lemma ContainsIgnoreCaseMeaning(s: string, p: string)
    ensures ContainsIgnoreCase(s, p) <==> OccursIgnoreCase(s, p)
  {
    var r := IndexOfIgnoreCase(s, p, 0);
    if r.Some? {
      assert MatchesAtIgnoreCase(s, p, r.value);
    }
  }

  predicate IsDigit(c: char) {
    '0' <= c <= '9'
  }

  /** The value of a run of decimal digits. */
  function DigitsValue(s: string): (v: nat)
    requires forall i :: 0 <= i < |s| ==> IsDigit(s[i])
  {
    if |s| == 0 then 0
    else
      assert IsDigit(s[|s| - 1]);
      DigitsValue(s[..|s| - 1]) * 10 + ((s[|s| - 1] as int - '0' as int) as nat)
  }

  /** `toIntOrNull()` / `toLongOrNull()` for a target range `lo..hi`: an optional
      sign, at least one digit, nothing else, and a value in range. */
  function ParseInteger(s: string, lo: int, hi: int): (r: Option<int>)
    ensures r.Some? ==> lo <= r.value <= hi
    ensures |s| == 0 ==> r.None?
    ensures r.Some? ==> exists k :: 0 <= k < |s| && IsDigit(s[k])
  {
    if |s| == 0 then None
    else
      var negative := s[0] == '-';
      var start := if s[0] == '-' || s[0] == '+' then 1 else 0;
      var digits := s[start..];
      if |digits| == 0 || exists i :: 0 <= i < |digits| && !IsDigit(digits[i]) then None
      else
        var magnitude := DigitsValue(digits);
        var n: int := if negative then -(magnitude as int) else magnitude;
        assert IsDigit(s[start]) by { assert s[start] == digits[0]; }
        if lo <= n <= hi then Some(n) else None
  }

  const IntMin: int := -0x8000_0000
  const IntMax: int := 0x7FFF_FFFF
  const LongMin: int := -0x8000_0000_0000_0000
  const LongMax: int := 0x7FFF_FFFF_FFFF_FFFF

  /** `String.toIntOrNull()`. */
  function ToIntOrNull(s: string): Option<int> {
    ParseInteger(s, IntMin, IntMax)
  }

  /** `String.toLongOrNull()`. */
  function ToLongOrNull(s: string): Option<int> {
    ParseInteger(s, LongMin, LongMax)
  }

  /** A string with no decimal digit, such as an IANA zone name, never parses. */
  lemma NoDigitNoNumber(s: string, lo: int, hi: int)
    requires forall k :: 0 <= k < |s| ==> !IsDigit(s[k])
    ensures ParseInteger(s, lo, hi).None?
  {
  }

  /** `String.compareTo(other) <= 0`: lexicographic by character, a proper
      prefix coming first. */
  predicate LexLe(a: string, b: string) {
    if |a| == 0 then true
    else if |b| == 0 then false
    else if a[0] != b[0] then a[0] < b[0]
    else LexLe(a[1..], b[1..])
  }

  lemma {:induction false} LexLeTotal(a: string, b: string)
    ensures LexLe(a, b) || LexLe(b, a)
    decreases |a|
  {
    if |a| > 0 && |b| > 0 && a[0] == b[0] {
      LexLeTotal(a[1..], b[1..]);
    }
  }

  lemma {:induction false} LexLeTransitive(a: string, b: string, c: string)
    requires LexLe(a, b) && LexLe(b, c)
    ensures LexLe(a, c)
    decreases |a|
  {
    if |a| > 0 && |b| > 0 && |c| > 0 && a[0] == b[0] && b[0] == c[0] {
      LexLeTransitive(a[1..], b[1..], c[1..]);
    }
  }

  /** Strings that compare equal are equal. */
  lemma {:induction false} LexLeAntisymmetric(a: string, b: string)
    requires LexLe(a, b) && LexLe(b, a)
    ensures a == b
    decreases |a|
  {
    if |a| > 0 && |b| > 0 {
      LexLeAntisymmetric(a[1..], b[1..]);
      assert a == [a[0]] + a[1..];
      assert b == [b[0]] + b[1..];
    }
  }
}
