/** The few Python string operations the scripts rely on, on `seq<char>`. */
module Strings {

  /** `p` occurs in `s` starting at index `i` */
  predicate OccursAt(s: string, p: string, i: int)
  {
    0 <= i <= |s| - |p| && s[i..i + |p|] == p
  }

  /** `p in s` (and `re.search` of a literal pattern) */
  predicate Contains(s: string, p: string)
  {
    exists i :: 0 <= i <= |s| && OccursAt(s, p, i)
  }

  /** `s.find(p, i)`: the first index at or after `i` where `p` occurs, or -1. */
  function FindFrom(s: string, p: string, i: nat): (r: int)
    requires i <= |s|
    ensures r == -1 || (i <= r && OccursAt(s, p, r))
    ensures forall j :: i <= j && (r == -1 || j < r) ==> !OccursAt(s, p, j)
    decreases |s| - i
  {
    if i + |p| > |s| then -1
    else if s[i..i + |p|] == p then i
    else if i == |s| then -1
    else FindFrom(s, p, i + 1)
  }

  /** `s.find(p)` */
  function Find(s: string, p: string): int
  {
    FindFrom(s, p, 0)
  }

  /** When `p` starts with a character that `d` does not contain, `(d + p).find(p)` is `|d|`. */
  lemma FindAfterPrefix(d: string, p: string)
    requires |p| > 0
    requires forall i :: 0 <= i < |d| ==> d[i] != p[0]
    ensures Find(d + p, p) == |d|
  {
    var s := d + p;
    assert s[|d|..|d| + |p|] == p;
    assert OccursAt(s, p, |d|);
    forall j | 0 <= j < |d|
      ensures !OccursAt(s, p, j)
    {
      assert s[j] == d[j];
    }
  }

  /** `s.startswith(p)`, and `re.match(p, s)` for a pattern `p` with no metacharacters. */
  predicate StartsWith(s: string, p: string)
  {
    |p| <= |s| && s[..|p|] == p
  }

  /** `c not in s` */
  predicate NoChar(s: string, c: char)
  {
    forall i :: 0 <= i < |s| ==> s[i] != c
  }

  /** `a` is never directly followed by `b` in `s`. */
  predicate NoPair(s: string, a: char, b: char)
  {
    forall i :: 0 <= i < |s| - 1 && s[i] == a ==> s[i + 1] != b
  }

  /** A string without the first character of `p` does not contain `p`. */
  lemma NoHeadNotContains(s: string, p: string)
    requires |p| > 0 && NoChar(s, p[0])
    ensures !Contains(s, p)
  {
  }

  /** A string in which the first two characters of `p` never appear side by side does not contain `p`. */
  lemma NoPairNotContains(s: string, p: string)
    requires |p| >= 2 && NoPair(s, p[0], p[1])
    ensures !Contains(s, p)
  {
  }

  lemma OccursAtHead(s: string, p: string, j: int)
    requires 0 <= j < |s| && |p| > 0
    ensures OccursAt(s, p, j) ==> s[j] == p[0]
  {
    if OccursAt(s, p, j) {
      assert s[j..j + |p|][0] == s[j];
    }
  }

  /** An occurrence in `m` is one in `d + m`, shifted by `|d|`. */
  lemma OccursFromSuffix(d: string, m: string, p: string, i: int)
    ensures OccursAt(m, p, i) ==> OccursAt(d + m, p, |d| + i)
  {
    if OccursAt(m, p, i) {
      assert (d + m)[|d| + i..|d| + i + |p|] == m[i..i + |p|];
    }
  }

  /** An occurrence starting inside the second part of `d + m` is an occurrence in `m`. */
  lemma OccursInSuffix(d: string, m: string, p: string, j: int)
    requires |d| <= j
    ensures OccursAt(d + m, p, j) ==> OccursAt(m, p, j - |d|)
  {
    if OccursAt(d + m, p, j) {
      assert m[j - |d|..j - |d| + |p|] == (d + m)[j..j + |p|];
    }
  }

  /** Prefixing a string with one that lacks `p[0]` cannot create an occurrence of `p`. */
  lemma ConcatNotContains(a: string, b: string, p: string)
    requires |p| > 0 && NoChar(a, p[0]) && !Contains(b, p)
    ensures !Contains(a + b, p)
  {
    var s := a + b;
    forall i | 0 <= i <= |s|
      ensures !OccursAt(s, p, i)
    {
      if i < |a| {
        OccursAtHead(s, p, i);
      } else {
        OccursInSuffix(a, b, p, i);
      }
    }
  }

  /** `p` occurs in `d + p`. */
  lemma ContainsSuffix(d: string, p: string)
    ensures Contains(d + p, p)
  {
    assert (d + p)[|d|..|d| + |p|] == p;
    assert OccursAt(d + p, p, |d|);
  }

  /** When `p` occurs in `s`, `s.find(p)` is the index of its first occurrence. */
  lemma ContainsFind(s: string, p: string)
    requires Contains(s, p)
    ensures Find(s, p) >= 0 && OccursAt(s, p, Find(s, p))
  {
  }

  predicate IsDigit(c: char)
  {
    '0' <= c <= '9'
  }

  function DigitChar(n: nat): (c: char)
    requires n < 10
    ensures IsDigit(c)
  {
    "0123456789"[n]
  }

  /** `str(n)` for a non-negative int: its decimal digits, most significant first, no leading zero. */
  function NatToString(n: nat): (s: string)
    ensures |s| > 0
    ensures forall i :: 0 <= i < |s| ==> IsDigit(s[i])
    ensures |s| > 1 ==> s[0] != '0'
  {
    if n < 10 then [DigitChar(n)]
    else NatToString(n / 10) + [DigitChar(n % 10)]
  }

  /** `str(i)` for any int */
  function IntToString(i: int): (s: string)
    ensures |s| > 0
    ensures i >= 0 ==> forall k :: 0 <= k < |s| ==> IsDigit(s[k])
    ensures i < 0 ==> s[0] == '-'
  {
    if i < 0 then "-" + NatToString(-i) else NatToString(i)
  }

  function DigitValue(c: char): nat
    requires IsDigit(c)
  {
    (c as int) - ('0' as int)
  }

  /** `int(s)` for a string of decimal digits */
  function ParseNat(s: string): nat
    requires forall i :: 0 <= i < |s| ==> IsDigit(s[i])
  {
    if s == [] then 0 else ParseNat(s[..|s| - 1]) * 10 + DigitValue(s[|s| - 1])
  }

  /** `int(str(n)) == n`: the decimal rendering loses nothing. */
  lemma {:induction false} NatToStringRoundTrip(n: nat)
    ensures ParseNat(NatToString(n)) == n
  {
    var s := NatToString(n);
    if n >= 10 {
      NatToStringRoundTrip(n / 10);
      assert s[..|s| - 1] == NatToString(n / 10);
    }
  }

  /** Distinct years render as distinct strings. */
  lemma NatToStringInjective(a: nat, b: nat)
    requires a != b
    ensures NatToString(a) != NatToString(b)
  {
    NatToStringRoundTrip(a);
    NatToStringRoundTrip(b);
  }
}
