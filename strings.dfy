/**
 * String facts the booth relies on: decimal rendering of counters
 * (`"{}".format(n)`), `str.startswith`, substring search (`bytes in bytes`)
 * and Python's code-point ordering of strings, with a reference sort.
 */
module Strings {

  predicate IsDigit(c: char) {
    '0' <= c <= '9'
  }

  function DigitChar(d: nat): (c: char)
    requires d < 10
    ensures IsDigit(c)
  {
    ('0' as int + d) as char
  }

  /** `"{}".format(n)` for a non-negative integer. */
  function NatToString(n: nat): (s: string)
    ensures |s| >= 1
    ensures forall i :: 0 <= i < |s| ==> IsDigit(s[i])
    ensures n >= 10 ==> |s| >= 2
    decreases n
  {
    if n < 10 then [DigitChar(n)] else NatToString(n / 10) + [DigitChar(n % 10)]
  }

  /** Different counters never render to the same text. */
  lemma {:induction false} NatToStringInjective(a: nat, b: nat)
    requires NatToString(a) == NatToString(b)
    ensures a == b
    decreases a
  {
    if a < 10 && b < 10 {
      assert NatToString(a)[0] == DigitChar(a);
      assert NatToString(b)[0] == DigitChar(b);
    } else if a >= 10 && b >= 10 {
      var sa, sb := NatToString(a), NatToString(b);
      assert sa[|sa| - 1] == DigitChar(a % 10);
      assert sb[|sb| - 1] == DigitChar(b % 10);
      assert sa[..|sa| - 1] == NatToString(a / 10);
      assert sb[..|sb| - 1] == NatToString(b / 10);
      NatToStringInjective(a / 10, b / 10);
    }
  }

  /** True when `s` is empty or does not start with a digit. */
  predicate StartsWithNonDigit(s: string) {
    s == [] || !IsDigit(s[0])
  }

  /**
   * A rendered counter followed by a tail that does not start with a digit
   * can be split back into counter and tail: the first non-digit ends the number.
   */
  lemma {:induction false} CounterThenTailInjective(a: nat, b: nat, s: string, t: string)
    requires NatToString(a) + s == NatToString(b) + t
    requires StartsWithNonDigit(s) && StartsWithNonDigit(t)
    ensures a == b && s == t
  {
    var na, nb := NatToString(a), NatToString(b);
    LeadingDigitsOf(na, s);
    LeadingDigitsOf(nb, t);
    assert na == (na + s)[..|na|] == (nb + t)[..|nb|] == nb;
    NatToStringInjective(a, b);
    assert s == (na + s)[|na|..] == (nb + t)[|nb|..] == t;
  }

  /** Length of the run of digits that `x` starts with. */
  function LeadingDigits(x: string): nat {
    if x == [] || !IsDigit(x[0]) then 0 else 1 + LeadingDigits(x[1..])
  }

  lemma {:induction false} LeadingDigitsOf(d: string, s: string)
    requires forall i :: 0 <= i < |d| ==> IsDigit(d[i])
    requires StartsWithNonDigit(s)
    ensures LeadingDigits(d + s) == |d|
  {
    if d == [] {
      assert d + s == s;
    } else {
      assert (d + s)[1..] == d[1..] + s;
      LeadingDigitsOf(d[1..], s);
    }
  }

  /** `s.startswith(prefix)`. */
  predicate StartsWith(s: string, prefix: string) {
    |prefix| <= |s| && s[..|prefix|] == prefix
  }

  /** `needle` occurs in `haystack` starting at index `i`. */
  predicate OccursAt(needle: string, haystack: string, i: int) {
    0 <= i <= |haystack| - |needle| && haystack[i..i + |needle|] == needle
  }

  /** `needle in haystack` for Python `bytes`/`str`: a substring test. */
  predicate IsSubstring(needle: string, haystack: string) {
    exists i | 0 <= i <= |haystack| :: OccursAt(needle, haystack, i)
  }

  /** Python's `a <= b` on strings: code point by code point, a proper prefix first. */
  predicate LexLessEq(a: string, b: string)
    decreases |a|
  {
    if a == [] then true
    else if b == [] then false
    else if a[0] != b[0] then a[0] < b[0]
    else LexLessEq(a[1..], b[1..])
  }

  /** A shared prefix does not change how two strings compare. */
  lemma {:induction false} LexLessEqCommonPrefix(p: string, a: string, b: string)
    ensures LexLessEq(p + a, p + b) <==> LexLessEq(a, b)
    decreases |p|
  {
    if p != [] {
      assert (p + a)[1..] == p[1..] + a && (p + b)[1..] == p[1..] + b;
      LexLessEqCommonPrefix(p[1..], a, b);
    } else {
      assert p + a == a && p + b == b;
    }
  }

  lemma {:induction false} LexLessEqTotal(a: string, b: string)
    ensures LexLessEq(a, b) || LexLessEq(b, a)
    decreases |a|
  {
    if a != [] && b != [] && a[0] == b[0] {
      LexLessEqTotal(a[1..], b[1..]);
    }
  }

  lemma {:induction false} LexLessEqReflexive(a: string)
    ensures LexLessEq(a, a)
    decreases |a|
  {
    if a != [] {
      LexLessEqReflexive(a[1..]);
    }
  }

  lemma {:induction false} LexLessEqTransitive(a: string, b: string, c: string)
    requires LexLessEq(a, b) && LexLessEq(b, c)
    ensures LexLessEq(a, c)
    decreases |a|
  {
    if a != [] && b != [] && c != [] && a[0] == b[0] && b[0] == c[0] {
      LexLessEqTransitive(a[1..], b[1..], c[1..]);
    }
  }

  lemma {:induction false} LexLessEqAntisymmetric(a: string, b: string)
    requires LexLessEq(a, b) && LexLessEq(b, a)
    ensures a == b
    decreases |a|
  {
    if a != [] && b != [] {
      LexLessEqAntisymmetric(a[1..], b[1..]);
      assert a == [a[0]] + a[1..];
      assert b == [b[0]] + b[1..];
    }
  }

  predicate Sorted(s: seq<string>) {
    forall i, j :: 0 <= i < j < |s| ==> LexLessEq(s[i], s[j])
  }

  /**
   * When x sorts after the head of a sorted list, the head sorts before
   * everything that inserting x into the tail produces.
   */
  lemma HeadBelowInsertion(x: string, s: seq<string>, rest: seq<string>)
    requires Sorted(s) && s != [] && !LexLessEq(x, s[0])
    requires multiset(rest) == multiset(s[1..]) + multiset{x}
    ensures forall k :: 0 <= k < |rest| ==> LexLessEq(s[0], rest[k])
  {
    LexLessEqTotal(x, s[0]);
    forall k | 0 <= k < |rest| ensures LexLessEq(s[0], rest[k]) {
      assert rest[k] in multiset(rest);
      if rest[k] != x {
        assert rest[k] in multiset(s[1..]);
        var j :| 0 <= j < |s[1..]| && s[1..][j] == rest[k];
        assert s[j + 1] == rest[k];
      }
    }
  }

  function Insert(x: string, s: seq<string>): (r: seq<string>)
    requires Sorted(s)
    ensures Sorted(r)
    ensures multiset(r) == multiset(s) + multiset{x}
    ensures |r| == |s| + 1
  {
    if s == [] then [x]
    else if LexLessEq(x, s[0]) then
      assert forall j :: 0 <= j < |s| ==> LexLessEq(x, s[j]) by {
        forall j | 0 <= j < |s| ensures LexLessEq(x, s[j]) {
          if j > 0 { LexLessEqTransitive(x, s[0], s[j]); }
        }
      }
      [x] + s
    else
      var rest := Insert(x, s[1..]);
      assert s == [s[0]] + s[1..];
      HeadBelowInsertion(x, s, rest);
      [s[0]] + rest
  }

  /** Insertion sort: a reference for Python's `list.sort()` on strings. */
  function SortStrings(s: seq<string>): (r: seq<string>)
    ensures Sorted(r)
    ensures multiset(r) == multiset(s)
    ensures |r| == |s|
  {
    if s == [] then []
    else
      assert s == s[..|s| - 1] + [s[|s| - 1]];
      Insert(s[|s| - 1], SortStrings(s[..|s| - 1]))
  }

  /** Two sorted arrangements of the same strings start with the same string. */
  lemma SortedHeadsAgree(a: seq<string>, b: seq<string>)
    requires Sorted(a) && Sorted(b) && multiset(a) == multiset(b) && a != []
    ensures b != [] && a[0] == b[0]
  {
    assert a[0] in multiset(b);
    var i :| 0 <= i < |b| && b[i] == a[0];
    assert b[0] in multiset(a);
    var j :| 0 <= j < |a| && a[j] == b[0];
    LexLessEqReflexive(a[0]);
    assert LexLessEq(b[0], b[i]) by { if i > 0 { assert LexLessEq(b[0], b[i]); } }
    assert LexLessEq(a[0], a[j]) by { if j > 0 { assert LexLessEq(a[0], a[j]); } }
    LexLessEqAntisymmetric(a[0], b[0]);
  }

  lemma TailsPermutation(a: seq<string>, b: seq<string>)
    requires multiset(a) == multiset(b) && a != [] && b != [] && a[0] == b[0]
    ensures multiset(a[1..]) == multiset(b[1..])
  {
    assert a == [a[0]] + a[1..];
    assert b == [b[0]] + b[1..];
    assert multiset(a) == multiset{a[0]} + multiset(a[1..]);
    assert multiset(b) == multiset{b[0]} + multiset(b[1..]);
    assert multiset(a[1..]) == multiset(a) - multiset{a[0]};
  }

  /** A sorted sequence is determined by its elements: any two sorted orderings agree. */
  lemma {:induction false} SortedPermutationUnique(a: seq<string>, b: seq<string>)
    requires Sorted(a) && Sorted(b) && multiset(a) == multiset(b)
    ensures a == b
    decreases |a|
  {
    if a != [] {
      SortedHeadsAgree(a, b);
      TailsPermutation(a, b);
      assert Sorted(a[1..]) && Sorted(b[1..]);
      SortedPermutationUnique(a[1..], b[1..]);
      assert a == [a[0]] + a[1..] && b == [b[0]] + b[1..];
    } else {
      assert |b| == |multiset(b)| == 0;
    }
  }
}
