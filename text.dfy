/** The string primitives of the .NET base library that the converter relies
    on: white space as `char.IsWhiteSpace` defines it, `String.Trim`,
    `String.IsNullOrWhiteSpace`, ordinal `StartsWith` and `Contains`, and the
    decimal rendering of line numbers used in warnings. */
module Text {

  /** `char.IsWhiteSpace`: U+0009..U+000D, U+0085 and the Unicode space,
      line and paragraph separators. */
  predicate IsWhiteSpace(c: char) {
    c in WhiteSpace
  }

  const WhiteSpace: set<char> := {
    '\U{0009}', '\U{000A}', '\U{000B}', '\U{000C}', '\U{000D}', ' ', '\U{0085}', '\U{00A0}',
    '\U{1680}', '\U{2000}', '\U{2001}', '\U{2002}', '\U{2003}', '\U{2004}', '\U{2005}',
    '\U{2006}', '\U{2007}', '\U{2008}', '\U{2009}', '\U{200A}', '\U{2028}', '\U{2029}',
    '\U{202F}', '\U{205F}', '\U{3000}'
  }

  /** `string.IsNullOrWhiteSpace` on a non-null string. */
  predicate IsBlank(s: string) {
    forall k :: 0 <= k < |s| ==> IsWhiteSpace(s[k])
  }

  /** An ASCII decimal digit (the model's reading of `\d`). */
  predicate IsDigit(c: char) {
    '0' <= c <= '9'
  }

  /** Length of the longest white-space prefix of `s`. */
  function LeadingWhite(s: string): (n: nat)
    ensures n <= |s|
    ensures IsBlank(s[..n])
    ensures n < |s| ==> !IsWhiteSpace(s[n])
  {
    if s == [] || !IsWhiteSpace(s[0]) then 0
    else
      var m := LeadingWhite(s[1..]);
      assert s[..1 + m] == [s[0]] + s[1..][..m];
      1 + m
  }

  /** Length of the longest white-space suffix of `s`. */
  function TrailingWhite(s: string): (n: nat)
    ensures n <= |s|
    ensures IsBlank(s[|s| - n..])
    ensures n < |s| ==> !IsWhiteSpace(s[|s| - 1 - n])
  {
    if s == [] || !IsWhiteSpace(s[|s| - 1]) then 0
    else
      var t := s[..|s| - 1];
      var m := TrailingWhite(t);
      assert s[|s| - (1 + m)..] == t[|t| - m..] + [s[|s| - 1]];
      1 + m
  }

  lemma BlankConcat(a: string, b: string)
    ensures IsBlank(a + b) <==> IsBlank(a) && IsBlank(b)
  {
    if IsBlank(a) && IsBlank(b) {
      forall k | 0 <= k < |a + b| ensures IsWhiteSpace((a + b)[k]) {
        if k >= |a| { assert (a + b)[k] == b[k - |a|]; }
      }
    }
    if IsBlank(a + b) {
      forall k | 0 <= k < |b| ensures IsWhiteSpace(b[k]) {
        assert (a + b)[|a| + k] == b[k];
      }
      forall k | 0 <= k < |a| ensures IsWhiteSpace(a[k]) {
        assert (a + b)[k] == a[k];
      }
    }
  }

  /** `String.TrimStart()`. */
  function TrimStart(s: string): string {
    s[LeadingWhite(s)..]
  }

  /** `String.TrimEnd()`. */
  function TrimEnd(s: string): string {
    s[..|s| - TrailingWhite(s)]
  }

  /** `String.Trim()`: `s` without its white-space prefix and suffix. */
  function Trim(s: string): string {
    TrimEnd(TrimStart(s))
  }

  lemma SplitAt(s: string, n: nat)
    requires n <= |s|
    ensures s == s[..n] + s[n..]
  {
  }

  lemma TrimEnds(s: string)
    ensures Trim(s) != [] ==> !IsWhiteSpace(Trim(s)[0]) && !IsWhiteSpace(Trim(s)[|Trim(s)| - 1])
  {
    var t := TrimStart(s);
    var r := TrimEnd(t);
    if r != [] {
      assert r[0] == t[0] == s[LeadingWhite(s)];
      assert r[|r| - 1] == t[|t| - 1 - TrailingWhite(t)];
    }
  }

  /** What trimming promises: only white space is removed, from the two ends,
      and the result neither starts nor ends with white space; it is empty
      exactly when `s` is blank. These facts determine Trim (TrimUnique). */
  lemma TrimSpec(s: string)
    ensures exists a, b :: IsBlank(a) && IsBlank(b) && s == a + Trim(s) + b
    ensures Trim(s) == [] <==> IsBlank(s)
    ensures Trim(s) != [] ==> !IsWhiteSpace(Trim(s)[0]) && !IsWhiteSpace(Trim(s)[|Trim(s)| - 1])
  {
    TrimEnds(s);
    var t := TrimStart(s);
    var r := Trim(s);
    var a, b := s[..LeadingWhite(s)], t[|t| - TrailingWhite(t)..];
    SplitAt(s, LeadingWhite(s));
    SplitAt(t, |t| - TrailingWhite(t));
    assert s == a + t && t == r + b;
    assert s == a + r + b;
    BlankConcat(a, Trim(s));
    BlankConcat(a + Trim(s), b);
    assert IsBlank(s) ==> LeadingWhite(s) == |s|;
  }

  /** A white-space run followed by a non-white character: the run is the
      longest white-space prefix. */
  lemma LeadingWhiteOf(a: string, r: string)
    requires IsBlank(a) && r != [] && !IsWhiteSpace(r[0])
    ensures LeadingWhite(a + r) == |a|
  {
    assert (a + r)[|a|] == r[0];
  }

  lemma TrailingWhiteOf(r: string, b: string)
    requires IsBlank(b) && r != [] && !IsWhiteSpace(r[|r| - 1])
    ensures TrailingWhite(r + b) == |b|
  {
    var s := r + b;
    assert s[|s| - 1 - |b|] == r[|r| - 1];
  }

  /** A string that is preceded and followed by white space only, and that
      neither starts nor ends with white space, is the trimmed string. */
  lemma TrimUnique(s: string, a: string, r: string, b: string)
    requires IsBlank(a) && IsBlank(b) && s == a + r + b
    requires r != [] ==> !IsWhiteSpace(r[0]) && !IsWhiteSpace(r[|r| - 1])
    ensures Trim(s) == r
  {
    if r == [] {
      TrimSpec(s);
      BlankConcat(a, b);
      assert s == a + b;
    } else {
      assert s == a + (r + b);
      LeadingWhiteOf(a, r + b);
      assert s[|a|..] == r + b;
      TrailingWhiteOf(r, b);
      assert (r + b)[..|r + b| - |b|] == r;
    }
  }

  /** Ordinal `StartsWith`. */
  predicate StartsWith(s: string, p: string) {
    p <= s
  }

  /** `p` occurs in `s` at position `k`. */
  predicate OccursAt(s: string, p: string, k: nat) {
    k + |p| <= |s| && s[k..k + |p|] == p
  }

  /** Ordinal `Contains`. */
  predicate Contains(s: string, p: string) {
    exists k: nat | k <= |s| :: OccursAt(s, p, k)
  }

  /** The decimal digit character for `d`. */
  function DigitChar(d: nat): (c: char)
    requires d < 10
    ensures IsDigit(c) && DigitValue(c) == d
  {
    ('0' as int + d) as char
  }

  /** The value of a decimal digit character. */
  function DigitValue(c: char): (d: nat)
    requires IsDigit(c)
    ensures d < 10
  {
    (c as int) - ('0' as int)
  }

  /** The decimal value of a string of digits. */
  function DecimalValue(s: string): nat
    requires forall k :: 0 <= k < |s| ==> IsDigit(s[k])
  {
    if s == [] then 0
    else 10 * DecimalValue(s[..|s| - 1]) + DigitValue(s[|s| - 1])
  }

  /** `int.ToString()` for a non-negative value, as used in `$"... {i + 1}"`:
      digits only, no leading zero. */
  function NatToString(n: nat): (r: string)
    ensures r != [] && forall k :: 0 <= k < |r| ==> IsDigit(r[k])
    ensures |r| > 1 ==> r[0] != '0'
    ensures DecimalValue(r) == n
  {
    if n < 10 then [DigitChar(n)]
    else
      var prefix := NatToString(n / 10);
      var r := prefix + [DigitChar(n % 10)];
      assert r[..|r| - 1] == prefix;
      r
  }

  /** A string with non-white ends is its own trim. */
  lemma TrimOfTrimmed(s: string)
    requires s != [] && !IsWhiteSpace(s[0]) && !IsWhiteSpace(s[|s| - 1])
    ensures Trim(s) == s
  {
    assert s == [] + s + [];
    TrimUnique(s, [], s, []);
  }
}
