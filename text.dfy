/** The few Kotlin string operations the core relies on: `split` on a single
    character, `trim`, `isBlank`, decimal digits and `Int.toString()`. */
module Text {

  /** Kotlin's `Char.isWhitespace()`: Java whitespace and Unicode space separators. */
  predicate IsWhitespace(c: char) {
    c == ' ' || ('\t' <= c <= '\r') || ('\U{1C}' <= c <= '\U{1F}')
    || c == '\U{A0}' || c == '\U{1680}'
    || ('\U{2000}' <= c <= '\U{200A}') || c == '\U{2028}' || c == '\U{2029}'
    || c == '\U{202F}' || c == '\U{205F}' || c == '\U{3000}'
  }

  /** Kotlin's `isBlank()`: empty or whitespace only. */
  predicate IsBlank(s: string) {
    forall i :: 0 <= i < |s| ==> IsWhitespace(s[i])
  }

  /** The index of the first character at or after `i` that is not
      whitespace, or `|s|` when there is none: the forward scan of `trim()`. */
  function SkipBlanks(s: string, i: nat): (n: nat)
    requires i <= |s|
    ensures i <= n <= |s|
    ensures forall j {:trigger IsWhitespace(s[j])} :: i <= j < n ==> IsWhitespace(s[j])
    ensures n == |s| || !IsWhitespace(s[n])
    decreases |s| - i
  {
    if i < |s| && IsWhitespace(s[i]) then SkipBlanks(s, i + 1) else i
  }

  /** The end of the stretch `s[lo..e]` once its trailing whitespace is
      dropped, never moving below `lo`: the backward scan of `trim()`. */
  function SkipBlanksBack(s: string, lo: nat, e: nat): (n: nat)
    requires lo <= e <= |s|
    ensures lo <= n <= e
    ensures forall j {:trigger IsWhitespace(s[j])} :: n <= j < e ==> IsWhitespace(s[j])
    ensures n == lo || !IsWhitespace(s[n - 1])
    decreases e
  {
    if lo < e && IsWhitespace(s[e - 1]) then SkipBlanksBack(s, lo, e - 1) else e
  }

  /** Kotlin's `trimStart()`: the suffix of `s` left once its leading whitespace is dropped. */
  function TrimStart(s: string): (r: string)
    ensures r == [] || !IsWhitespace(r[0])
    ensures |r| <= |s| && r == s[|s| - |r|..]
    ensures forall i {:trigger IsWhitespace(s[i])} :: 0 <= i < |s| - |r| ==> IsWhitespace(s[i])
  {
    s[SkipBlanks(s, 0)..]
  }

  /** Kotlin's `trimEnd()`: the prefix of `s` left once its trailing whitespace is dropped. */
  function TrimEnd(s: string): (r: string)
    ensures r == [] || !IsWhitespace(r[|r| - 1])
    ensures |r| <= |s| && r == s[..|r|]
    ensures forall i {:trigger IsWhitespace(s[i])} :: |r| <= i < |s| ==> IsWhitespace(s[i])
  {
    s[..SkipBlanksBack(s, 0, |s|)]
  }

  /** Kotlin's `trim()`: scan forward over the leading whitespace, then back
      over the trailing whitespace without passing the start, and keep what
      lies between. */
  function Trim(s: string): (r: string)
    ensures r == [] || (!IsWhitespace(r[0]) && !IsWhitespace(r[|r| - 1]))
    ensures forall c :: c in r ==> c in s
  {
    var k := SkipBlanks(s, 0);
    var e := SkipBlanksBack(s, k, |s|);
    assert e > k ==> s[k..e][0] == s[k] && s[k..e][e - k - 1] == s[e - 1];
    s[k..e]
  }

  /** `trim()` keeps the run of `s` between its leading and its trailing
      whitespace: what precedes and what follows the result is whitespace only. */
  lemma TrimInfix(s: string)
    ensures var k, r := |s| - |TrimStart(s)|, Trim(s);
            && k + |r| <= |s| && r == s[k..k + |r|]
            && (forall i {:trigger IsWhitespace(s[i])} :: 0 <= i < k ==> IsWhitespace(s[i]))
            && (forall i {:trigger IsWhitespace(s[i])} :: k + |r| <= i < |s| ==> IsWhitespace(s[i]))
  {
    var k := SkipBlanks(s, 0);
    var e := SkipBlanksBack(s, k, |s|);
    assert |TrimStart(s)| == |s| - k;
    assert Trim(s) == s[k..e];
  }

  /** `trim()` yields the empty string exactly for a blank one. */
  lemma TrimEmptyIffBlank(s: string)
    ensures Trim(s) == [] <==> IsBlank(s)
  {
    var k := SkipBlanks(s, 0);
    var e := SkipBlanksBack(s, k, |s|);
    if Trim(s) == [] {
      assert e == k && k == |s|;
    } else {
      assert !IsWhitespace(s[k]);
    }
  }

  /** A string with nothing to trim is its own trim. */
  lemma TrimOfTrimmed(s: string)
    requires s == [] || (!IsWhitespace(s[0]) && !IsWhitespace(s[|s| - 1]))
    ensures Trim(s) == s
  {
  }

  /** Kotlin's `split(d)` for a one-character delimiter: never empty, keeps empty parts. */
  function Split(s: string, d: char): (r: seq<string>)
    ensures |r| >= 1
    ensures forall k :: 0 <= k < |r| ==> d !in r[k]
  {
    if s == [] then [[]]
    else
      var rest := Split(s[1..], d);
      if s[0] == d then [[]] + rest
      else [[s[0]] + rest[0]] + rest[1..]
  }

  /** A string without the delimiter splits into itself alone. */
  lemma {:induction false} SplitWithout(s: string, d: char)
    requires d !in s
    ensures Split(s, d) == [s]
  {
    if s != [] {
      SplitWithout(s[1..], d);
      assert [s[0]] + s[1..] == s;
    }
  }

  /** Splitting `a + d + b` where `a` lacks `d` yields `a` followed by the parts of `b`. */
  lemma {:induction false} SplitAt(a: string, d: char, b: string)
    requires d !in a
    ensures Split(a + [d] + b, d) == [a] + Split(b, d)
  {
    if a == [] {
      assert a + [d] + b == [d] + b;
      assert ([d] + b)[1..] == b;
    } else {
      assert (a + [d] + b)[1..] == a[1..] + [d] + b;
      SplitAt(a[1..], d, b);
      assert [a[0]] + a[1..] == a;
    }
  }

  /** Java's `\d` without the Unicode flag. */
  predicate IsDigit(c: char) {
    '0' <= c <= '9'
  }

  predicate AllDigits(s: string) {
    forall i :: 0 <= i < |s| ==> IsDigit(s[i])
  }

  /** The value of a string of decimal digits. */
  function DigitsValue(s: string): (n: nat)
    requires AllDigits(s)
  {
    if s == [] then 0
    else 10 * DigitsValue(s[..|s| - 1]) + (s[|s| - 1] as int - '0' as int)
  }

  /** `Int.toString()` for a non-negative index. */
  function NatToString(n: nat): (r: string)
    ensures |r| >= 1 && AllDigits(r)
    ensures DigitsValue(r) == n
  {
    var last := ['0' + (n % 10) as char];
    if n < 10 then last
    else
      var r := NatToString(n / 10) + last;
      assert r[..|r| - 1] == NatToString(n / 10);
      r
  }

  /** Distinct indices have distinct decimal spellings. */
  lemma NatToStringInjective(m: nat, n: nat)
    requires NatToString(m) == NatToString(n)
    ensures m == n
  {
  }
}
