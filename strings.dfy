/** String primitives that the pipeline borrows from Python's `str`:
    `find`, `strip`, `lower`, `in` and the decimal rendering of integers. */
module Strings {

  /** `p` occurs in `s` starting at index `i`. */
  predicate OccursAt(s: string, p: string, i: int) {
    0 <= i && i + |p| <= |s| && s[i..i + |p|] == p
  }

  /** The k-th character of an occurrence of `p` is the k-th of `p`. */
  lemma CharOfOccurrence(s: string, p: string, i: int, k: int)
    requires OccursAt(s, p, i) && 0 <= k < |p|
    ensures s[i + k] == p[k]
  {
    assert s[i + k] == s[i..i + |p|][k];
  }

  /** Python's `p in s`. */
  predicate Contains(s: string, p: string) {
    exists i :: 0 <= i <= |s| && OccursAt(s, p, i)
  }

  /** Python's `s.find(p)`: the first index where `p` occurs, or -1. */
  function Find(s: string, p: string): (r: int)
    ensures r == -1 <==> !Contains(s, p)
    ensures r != -1 ==> OccursAt(s, p, r) && forall j :: 0 <= j < r ==> !OccursAt(s, p, j)
  {
    FindFrom(s, p, 0)
  }

  /** The first occurrence of `p` at index `i` or later. */
  function FindFrom(s: string, p: string, i: nat): (r: int)
    requires i <= |s|
    ensures r == -1 ==> forall j :: i <= j ==> !OccursAt(s, p, j)
    ensures r != -1 ==> i <= r && OccursAt(s, p, r) && forall j :: i <= j < r ==> !OccursAt(s, p, j)
    decreases |s| - i
  {
    if OccursAt(s, p, i) then i
    else if i == |s| then -1
    else FindFrom(s, p, i + 1)
  }

  /** When no occurrence of `p` starts before `i`, the prefix `s[..i]` holds
      none at all. */
  lemma NoEarlierOccurrence(s: string, p: string, i: int)
    requires 0 <= i <= |s| && |p| >= 1
    requires forall j :: 0 <= j < i ==> !OccursAt(s, p, j)
    ensures !Contains(s[..i], p)
  {
    forall j | 0 <= j <= i && OccursAt(s[..i], p, j) ensures false {
      assert s[..i][j..j + |p|] == s[j..j + |p|];
      assert OccursAt(s, p, j);
    }
  }

  /** For a one-character pattern, `Find` locates the first occurrence of
      that character. */
  lemma FindChar(s: string, c: char)
    ensures Find(s, [c]) == -1 <==> c !in s
    ensures Find(s, [c]) != -1 ==> s[Find(s, [c])] == c && c !in s[..Find(s, [c])]
  {
    var i := Find(s, [c]);
    if c in s {
      var k :| 0 <= k < |s| && s[k] == c;
      assert s[k..k + 1] == [c];
      assert OccursAt(s, [c], k);
    }
    if i != -1 {
      assert s[i] == s[i..i + 1][0];
      forall k | 0 <= k < i && s[k] == c ensures false {
        assert s[k..k + 1] == [c];
        assert OccursAt(s, [c], k);
      }
    }
  }

  /** No occurrence of `p` can straddle the seam of `a + b` when the last
      character of `a` cannot start a proper part of `p`, or the first
      character of `b` cannot end one. */
  lemma {:induction false} NoOccurrenceInConcat(a: string, b: string, p: string)
    requires |p| >= 1
    requires !Contains(a, p) && !Contains(b, p)
    requires (|a| > 0 && a[|a| - 1] !in p[..|p| - 1]) || (|b| > 0 && b[0] !in p[1..])
    ensures !Contains(a + b, p)
  {
    forall i | 0 <= i ensures !OccursAt(a + b, p, i) {
      if OccursAt(a + b, p, i) {
        var s := a + b;
        if i + |p| <= |a| {
          assert s[i..i + |p|] == a[i..i + |p|];
          assert OccursAt(a, p, i);
        } else if i >= |a| {
          assert s[i..i + |p|] == b[i - |a|..i - |a| + |p|];
          assert OccursAt(b, p, i - |a|);
        } else {
          SeamCharacters(a, b, p, i);
          assert false;
        }
      }
    }
  }

  /** An occurrence of `p` across the seam of `a + b` puts the last
      character of `a` inside `p` without its last character, and the first
      character of `b` inside `p` without its first. */
  lemma SeamCharacters(a: string, b: string, p: string, i: int)
    requires 0 <= i < |a| < i + |p| && OccursAt(a + b, p, i)
    ensures a[|a| - 1] in p[..|p| - 1] && b[0] in p[1..]
  {
    var s, k := a + b, |a| - i;
    assert s[|a| - 1] == s[i..i + |p|][k - 1] == p[k - 1] == p[..|p| - 1][k - 1];
    assert s[|a|] == s[i..i + |p|][k] == p[k] == p[1..][k - 1];
  }

  /** A string that never holds the first character of `p` holds no `p`. */
  lemma FirstCharAbsent(s: string, p: string)
    requires |p| >= 1 && p[0] !in s
    ensures !Contains(s, p)
  {
  }

  /** `Find` stops at an occurrence of `p` when the first character of `p`
      appears nowhere before it. */
  lemma FindFirstAt(s: string, p: string, i: int)
    requires |p| >= 1 && OccursAt(s, p, i) && p[0] !in s[..i]
    ensures Find(s, p) == i
  {
  }

  /** Python's `str.isspace` on one character: the Unicode white space
      characters that `strip()` removes, the no-break space U+00A0 included. */
  predicate IsSpace(c: char) {
    c == ' ' || ('\t' <= c <= '\r') || ('\U{1c}' <= c <= '\U{1f}')
    || c == '\U{85}' || c == '\U{a0}' || c == '\U{1680}'
    || ('\U{2000}' <= c <= '\U{200a}') || c == '\U{2028}' || c == '\U{2029}'
    || c == '\U{202f}' || c == '\U{205f}' || c == '\U{3000}'
  }

  /** Removes the leading white space. */
  function TrimStart(s: string): (r: string)
    ensures |r| <= |s| && r == s[|s| - |r|..]
    ensures r == [] || !IsSpace(r[0])
    ensures forall k :: 0 <= k < |s| - |r| ==> IsSpace(s[k])
  {
    if s != [] && IsSpace(s[0]) then TrimStart(s[1..]) else s
  }

  /** Removes the trailing white space. */
  function TrimEnd(s: string): (r: string)
    ensures |r| <= |s| && r == s[..|r|]
    ensures r == [] || !IsSpace(r[|r| - 1])
    ensures forall k :: |r| <= k < |s| ==> IsSpace(s[k])
  {
    if s != [] && IsSpace(s[|s| - 1]) then TrimEnd(s[..|s| - 1]) else s
  }

  /** Python's `s.strip()`: `s` without its leading and trailing white
      space; the kept part is a contiguous slice of `s`. */
  function Strip(s: string): (r: string)
    ensures exists lo, hi :: (0 <= lo <= hi <= |s| && r == s[lo..hi]
      && (forall k :: 0 <= k < lo ==> IsSpace(s[k]))
      && (forall k :: hi <= k < |s| ==> IsSpace(s[k])))
    ensures r == [] || (!IsSpace(r[0]) && !IsSpace(r[|r| - 1]))
  {
    var t := TrimStart(s);
    var r := TrimEnd(t);
    assert r == s[|s| - |t|..|s| - |t| + |r|];
    r
  }

  /** Every character is white space. */
  predicate AllSpace(s: string) {
    forall k :: 0 <= k < |s| ==> IsSpace(s[k])
  }

  /** Leading white space is all that `TrimStart` removes. */
  lemma {:induction false} TrimStartOfSpaces(before: string, t: string)
    requires AllSpace(before) && t != [] && !IsSpace(t[0])
    ensures TrimStart(before + t) == t
  {
    if before == [] {
      assert before + t == t;
    } else {
      assert (before + t)[1..] == before[1..] + t;
      TrimStartOfSpaces(before[1..], t);
    }
  }

  /** Trailing white space is all that `TrimEnd` removes. */
  lemma {:induction false} TrimEndOfSpaces(t: string, after: string)
    requires AllSpace(after) && t != [] && !IsSpace(t[|t| - 1])
    ensures TrimEnd(t + after) == t
  {
    if after == [] {
      assert t + after == t;
    } else {
      assert (t + after)[..|t + after| - 1] == t + after[..|after| - 1];
      TrimEndOfSpaces(t, after[..|after| - 1]);
    }
  }

  /** `strip()` removes any white space around a text that neither starts
      nor ends with white space, and nothing else. */
  lemma StripOfPadded(before: string, s: string, after: string)
    requires AllSpace(before) && AllSpace(after)
    requires s != [] && !IsSpace(s[0]) && !IsSpace(s[|s| - 1])
    ensures Strip(before + s + after) == s
  {
    assert before + s + after == before + (s + after);
    TrimStartOfSpaces(before, s + after);
    TrimEndOfSpaces(s, after);
  }

  /** Python's `str.lower` on one character, for ASCII and Latin-1. */
  function LowerChar(c: char): (r: char)
    ensures ('A' <= c <= 'Z') ==> 'a' <= r <= 'z'
  {
    if 'A' <= c <= 'Z' || ('\U{c0}' <= c <= '\U{de}' && c != '\U{d7}')
    then (c as int + 32) as char
    else c
  }

  /** Python's `s.lower()`, character by character. */
  function Lower(s: string): (r: string)
    ensures |r| == |s|
    ensures forall k :: 0 <= k < |s| ==> r[k] == LowerChar(s[k])
  {
    seq(|s|, k requires 0 <= k < |s| => LowerChar(s[k]))
  }

  predicate IsDigit(c: char) {
    '0' <= c <= '9'
  }

  predicate AllDigits(s: string) {
    forall k :: 0 <= k < |s| ==> IsDigit(s[k])
  }

  function DigitChar(d: nat): (c: char)
    requires d < 10
    ensures IsDigit(c) && c as int - '0' as int == d
  {
    ('0' as int + d) as char
  }

  /** The number a string of decimal digits stands for. */
  function DigitsValue(s: string): nat
    requires AllDigits(s)
  {
    if s == [] then 0
    else DigitsValue(s[..|s| - 1]) * 10 + (s[|s| - 1] as int - '0' as int)
  }

  /** Python's `str(n)` for a natural number: its shortest decimal digits. */
  function NatToString(n: nat): (r: string)
    ensures |r| >= 1 && AllDigits(r)
    ensures DigitsValue(r) == n
    ensures |r| > 1 ==> r[0] != '0'
  {
    if n < 10 then [DigitChar(n)]
    else
      var prefix := NatToString(n / 10);
      var r := prefix + [DigitChar(n % 10)];
      assert r[..|r| - 1] == prefix;
      r
  }

  /** Python's `str(i)` for an integer. */
  function IntToString(i: int): (r: string)
    ensures |r| >= 1
    ensures i >= 0 ==> AllDigits(r) && DigitsValue(r) == i
    ensures i < 0 ==> r[0] == '-' && AllDigits(r[1..]) && DigitsValue(r[1..]) == -i
  {
    if i < 0 then "-" + NatToString(-i) else NatToString(i)
  }

  function Pow10(k: nat): (r: nat)
    ensures r >= 1
  {
    if k == 0 then 1 else 10 * Pow10(k - 1)
  }

  /** A number below 10^k needs at most k digits. */
  lemma {:induction false} NatToStringLength(n: nat, k: nat)
    requires k >= 1 && n < Pow10(k)
    ensures |NatToString(n)| <= k
  {
    if n >= 10 {
      assert k >= 1;
      NatToStringLength(n / 10, k - 1);
      assert |NatToString(n)| == |NatToString(n / 10)| + 1;
    }
  }

  /** Leading zeros do not change the number a digit string stands for. */
  lemma {:induction false} DigitsValueLeadingZero(s: string)
    requires AllDigits(s)
    ensures AllDigits("0" + s) && DigitsValue("0" + s) == DigitsValue(s)
  {
    if s != [] {
      DigitsValueLeadingZero(s[..|s| - 1]);
      assert ("0" + s)[..|"0" + s| - 1] == "0" + s[..|s| - 1];
    }
  }

  /** `n` written with at least `width` digits, zero-padded on the left,
      as `strftime` renders `%d`, `%m` and `%Y`. */
  function ZeroPad(n: nat, width: nat): (r: string)
    ensures AllDigits(r) && DigitsValue(r) == n
    ensures |r| == if |NatToString(n)| < width then width else |NatToString(n)|
    decreases width
  {
    if |NatToString(n)| < width then
      var rest := ZeroPad(n, width - 1);
      DigitsValueLeadingZero(rest);
      "0" + rest
    else NatToString(n)
  }
}
