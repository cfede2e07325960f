/** The string building blocks the text report uses: decimal rendering of a
    number as a template literal prints it, `String.prototype.repeat`, and
    the view of a report as newline-terminated lines. */
module Strings {

  predicate IsDigit(c: char) {
    '0' <= c <= '9'
  }

  function DigitChar(d: int): (c: char)
    requires 0 <= d < 10
    ensures IsDigit(c) && c as int - '0' as int == d
  {
    ('0' as int + d) as char
  }

  /** Decimal digits of n, most significant first, no leading zero. */
  function NatToString(n: nat): (s: string)
    ensures |s| > 0 && IsDigit(s[0])
    ensures forall i :: 0 <= i < |s| ==> IsDigit(s[i])
  {
    if n < 10 then [DigitChar(n)] else NatToString(n / 10) + [DigitChar(n % 10)]
  }

  /** The value of a non-empty string of decimal digits. */
  function DigitsValue(s: string): int
    requires forall i :: 0 <= i < |s| ==> IsDigit(s[i])
  {
    if s == [] then 0
    else 10 * DigitsValue(s[..|s| - 1]) + (s[|s| - 1] as int - '0' as int)
  }

  /** Reading the digits back gives the number: the rendering loses nothing. */
  lemma {:induction false} NatToStringRoundTrip(n: nat)
    ensures DigitsValue(NatToString(n)) == n
  {
    if n >= 10 {
      var s := NatToString(n);
      NatToStringRoundTrip(n / 10);
      assert s[..|s| - 1] == NatToString(n / 10);
    }
  }

  /** Different numbers render differently. */
  lemma NatToStringInjective(m: nat, n: nat)
    requires NatToString(m) == NatToString(n)
    ensures m == n
  {
    NatToStringRoundTrip(m);
    NatToStringRoundTrip(n);
  }

  /** `${n}` for an integer n: a minus sign before the digits of |n|. */
  function IntToString(n: int): (s: string)
    ensures |s| > 0
    ensures n >= 0 ==> IsDigit(s[0])
    ensures n < 0 ==> s[0] == '-'
  {
    if n < 0 then "-" + NatToString(-n) else NatToString(n)
  }

  /** What the rendering says: the digits of n when n is not negative, and
      otherwise a minus sign followed by the digits of -n. */
  lemma IntToStringValue(n: int)
    ensures var s := IntToString(n);
            n >= 0 ==> (forall k :: 0 <= k < |s| ==> IsDigit(s[k])) && DigitsValue(s) == n
    ensures var s := IntToString(n);
            n < 0 ==> s[0] == '-' && (forall k :: 1 <= k < |s| ==> IsDigit(s[k])) && DigitsValue(s[1..]) == -n
  {
    if n < 0 {
      NatToStringRoundTrip(-n);
      assert IntToString(n)[1..] == NatToString(-n);
    } else {
      NatToStringRoundTrip(n);
    }
  }

  /** `c.repeat(n)`. */
  function Repeat(c: char, n: nat): (s: string)
    ensures |s| == n
    ensures forall i :: 0 <= i < n ==> s[i] == c
  {
    if n == 0 then [] else Repeat(c, n - 1) + [c]
  }

  /** The text made of the given lines, each followed by a newline. */
  function Unlines(lines: seq<string>): string {
    if lines == [] then "" else Unlines(lines[..|lines| - 1]) + lines[|lines| - 1] + "\n"
  }

  /** The text of two runs of lines is the first text followed by the second. */
  lemma {:induction false} UnlinesAppend(a: seq<string>, b: seq<string>)
    ensures Unlines(a + b) == Unlines(a) + Unlines(b)
    decreases |b|
  {
    if b != [] {
      var b' := b[..|b| - 1];
      assert (a + b)[..|a + b| - 1] == a + b';
      UnlinesAppend(a, b');
    } else {
      assert a + b == a;
    }
  }

  /** The lines that begin with the prefix p, in their order. */
  function WithPrefix(lines: seq<string>, p: string): (r: seq<string>)
    ensures |r| <= |lines|
  {
    if lines == [] then []
    else (if p <= lines[0] then [lines[0]] else []) + WithPrefix(lines[1..], p)
  }

  lemma {:induction false} WithPrefixAppend(a: seq<string>, b: seq<string>, p: string)
    ensures WithPrefix(a + b, p) == WithPrefix(a, p) + WithPrefix(b, p)
  {
    if a == [] {
      assert a + b == b;
    } else {
      assert (a + b)[1..] == a[1..] + b;
      WithPrefixAppend(a[1..], b, p);
    }
  }

  lemma WithPrefixSingle(l: string, p: string)
    ensures WithPrefix([l], p) == if p <= l then [l] else []
  {
    assert [l][1..] == [];
  }

  lemma WithPrefixPair(x: string, y: string, p: string)
    ensures WithPrefix([x, y], p) == WithPrefix([x], p) + WithPrefix([y], p)
  {
    assert [x, y] == [x] + [y];
    WithPrefixAppend([x], [y], p);
  }

  /** A line whose first character differs from p's does not begin with p. */
  lemma NotWithPrefix(l: string, p: string)
    requires |p| > 0 && (l == [] || l[0] != p[0])
    ensures WithPrefix([l], p) == []
  {
    WithPrefixSingle(l, p);
  }
}
