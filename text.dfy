/** The parts of Python's `str` that the application relies on: `strip()`,
    `replace(pat, "")`, substring search and the decimal rendering of an
    integer inside an f-string. */
module Text {

  /** Python's `str.isspace` set: the ASCII controls 9-13 and 28-31, the
      space, NEL, NO-BREAK SPACE and the Unicode space and line separators. */
  predicate IsSpace(c: char) {
    var n := c as int;
    (9 <= n <= 13) || (28 <= n <= 32) || n == 0x85 || n == 0xA0 || n == 0x1680
    || (0x2000 <= n <= 0x200A) || n == 0x2028 || n == 0x2029 || n == 0x202F
    || n == 0x205F || n == 0x3000
  }

  /** The first position at or after `lo` that does not hold whitespace. */
  function FirstNonSpace(s: string, lo: nat): (l: nat)
    requires lo <= |s|
    ensures lo <= l <= |s|
    ensures forall i :: lo <= i < l ==> IsSpace(s[i])
    ensures l < |s| ==> !IsSpace(s[l])
    decreases |s| - lo
  {
    if lo < |s| && IsSpace(s[lo]) then FirstNonSpace(s, lo + 1) else lo
  }

  /** The end of `s[lo..hi]` once its trailing whitespace is dropped. */
  function EndBeforeSpaces(s: string, lo: nat, hi: nat): (h: nat)
    requires lo <= hi <= |s|
    ensures lo <= h <= hi
    ensures forall i :: h <= i < hi ==> IsSpace(s[i])
    ensures lo < h ==> !IsSpace(s[h - 1])
    decreases hi
  {
    if lo < hi && IsSpace(s[hi - 1]) then EndBeforeSpaces(s, lo, hi - 1) else hi
  }

  /** The slice `s[lo..hi]` that `s.strip()` keeps: everything outside it is
      whitespace and, when it is not empty, it starts and ends with a
      non-whitespace character. */
  function StripBounds(s: string): (b: (nat, nat))
    ensures b.0 <= b.1 <= |s|
    ensures forall i :: 0 <= i < b.0 ==> IsSpace(s[i])
    ensures forall i :: b.1 <= i < |s| ==> IsSpace(s[i])
    ensures b.0 < b.1 ==> !IsSpace(s[b.0]) && !IsSpace(s[b.1 - 1])
  {
    var lo := FirstNonSpace(s, 0);
    (lo, EndBeforeSpaces(s, lo, |s|))
  }

  /** Python's `s.strip()` with no argument. */
  function Strip(s: string): string {
    var b := StripBounds(s);
    s[b.0..b.1]
  }

  /** A text with no surrounding whitespace is left alone by `strip()`. */
  lemma StripUnpadded(s: string)
    requires |s| > 0 && !IsSpace(s[0]) && !IsSpace(s[|s| - 1])
    ensures Strip(s) == s
  {
  }

  /** `strip()` removes exactly the whitespace around an unpadded text. */
  lemma StripPadded(pre: string, body: string, post: string)
    requires forall i :: 0 <= i < |pre| ==> IsSpace(pre[i])
    requires forall i :: 0 <= i < |post| ==> IsSpace(post[i])
    requires |body| > 0 && !IsSpace(body[0]) && !IsSpace(body[|body| - 1])
    ensures Strip(pre + body + post) == body
  {
    var s := pre + body + post;
    var b := StripBounds(s);
    var lo, hi := |pre|, |pre| + |body|;
    assert s[lo] == body[0] && s[hi - 1] == body[|body| - 1];
    assert forall i :: 0 <= i < lo ==> s[i] == pre[i];
    assert forall i :: hi <= i < |s| ==> s[i] == post[i - hi];
    assert b.0 == lo;
    assert b.1 == hi;
    assert s[lo..hi] == body;
  }

  /** `pat` occurs in `s` starting at position `i`. */
  ghost predicate OccursAt(s: string, pat: string, i: int) {
    0 <= i && i + |pat| <= |s| && s[i..i + |pat|] == pat
  }

  /** Python's `pat in s`. */
  ghost predicate Occurs(s: string, pat: string) {
    exists i :: OccursAt(s, pat, i)
  }

  /** Python's `s.replace(pat, "")`: the non-overlapping occurrences of `pat`
      found scanning from the left are deleted. An empty `pat` leaves `s`
      unchanged, as `s.replace("", "")` does. */
  function RemoveAll(s: string, pat: string): (r: string)
    ensures |r| <= |s|
    decreases |s|
  {
    if |pat| == 0 || |s| < |pat| then s
    else if s[..|pat|] == pat then RemoveAll(s[|pat|..], pat)
    else [s[0]] + RemoveAll(s[1..], pat)
  }

  /** Removing a pattern that does not occur changes nothing. */
  lemma {:induction false} RemoveAllAbsent(s: string, pat: string)
    requires !Occurs(s, pat)
    ensures RemoveAll(s, pat) == s
    decreases |s|
  {
    if |pat| == 0 || |s| < |pat| {
    } else {
      assert !OccursAt(s, pat, 0);
      assert s[..|pat|] != pat;
      OccursInSlice(s, 1, |s|, pat);
      assert s[1..|s|] == s[1..];
      RemoveAllAbsent(s[1..], pat);
      assert s == [s[0]] + s[1..];
    }
  }

  /** A prefix containing no character that can start `pat` is copied through. */
  lemma {:induction false} RemoveAllPlainPrefix(x: string, y: string, pat: string)
    requires |pat| > 0
    requires forall i :: 0 <= i < |x| ==> x[i] != pat[0]
    ensures RemoveAll(x + y, pat) == x + RemoveAll(y, pat)
    decreases |x|
  {
    if |x| == 0 {
      assert x + y == y;
    } else {
      var s, x', rest := x + y, x[1..], RemoveAll(y, pat);
      assert forall i :: 0 <= i < |x'| ==> x'[i] == x[i + 1];
      RemoveAllPlainHead(s, pat);
      assert s[0] == x[0] && s[1..] == x' + y;
      RemoveAllPlainPrefix(x', y, pat);
      ConsAssociative(x[0], x', rest);
      assert [x[0]] + x' == x;
    }
  }

  lemma ConsAssociative(c: char, a: string, b: string)
    ensures [c] + (a + b) == ([c] + a) + b
  {
  }

  /** A head that cannot start `pat` is kept and the scan moves on by one. */
  lemma RemoveAllPlainHead(s: string, pat: string)
    requires |pat| > 0 && |s| > 0 && s[0] != pat[0]
    ensures RemoveAll(s, pat) == [s[0]] + RemoveAll(s[1..], pat)
  {
    if |s| >= |pat| {
      assert s[..|pat|][0] == s[0];
    }
  }

  /** A leading occurrence of `pat` is deleted and the scan resumes after it. */
  lemma RemoveAllLeadingMatch(pat: string, rest: string)
    requires |pat| > 0
    ensures RemoveAll(pat + rest, pat) == RemoveAll(rest, pat)
  {
    assert (pat + rest)[..|pat|] == pat;
    assert (pat + rest)[|pat|..] == rest;
  }

  /** A character that cannot start `pat` survives at the head. */
  lemma RemoveAllKeepsHead(u: string, pat: string)
    requires |pat| > 0 && |u| > 0 && u[0] != pat[0]
    ensures |RemoveAll(u, pat)| > 0 && RemoveAll(u, pat)[0] == u[0]
  {
    if |u| >= |pat| {
      assert u[..|pat|][0] == u[0];
    }
  }

  /** A slice of a slice is a slice of the whole text. */
  lemma SliceOfSlice(s: string, lo: int, hi: int, i: int, n: int)
    requires 0 <= lo <= hi <= |s| && 0 <= i && 0 <= n && i + n <= hi - lo
    ensures s[lo..hi][i..i + n] == s[lo + i..lo + i + n]
  {
    var inner, outer := s[lo..hi][i..i + n], s[lo + i..lo + i + n];
    assert forall k :: 0 <= k < n ==> inner[k] == outer[k];
  }

  /** An occurrence inside a slice is an occurrence in the whole text. */
  lemma OccursInSlice(s: string, lo: int, hi: int, pat: string)
    requires 0 <= lo <= hi <= |s|
    ensures Occurs(s[lo..hi], pat) ==> Occurs(s, pat)
  {
    forall i | OccursAt(s[lo..hi], pat, i)
      ensures OccursAt(s, pat, lo + i)
    {
      SliceOfSlice(s, lo, hi, i, |pat|);
    }
  }

  /** An occurrence of `pat` is also an occurrence of each prefix of `pat`. */
  lemma OccursPrefixOfPattern(s: string, pat: string, p: string)
    requires p <= pat
    requires Occurs(s, pat)
    ensures Occurs(s, p)
  {
    var i :| OccursAt(s, pat, i);
    assert s[i..i + |p|] == s[i..i + |pat|][..|p|];
    assert OccursAt(s, p, i);
  }

  /** The decimal digit for `d`. */
  function DigitChar(d: nat): char
    requires d < 10
  {
    "0123456789"[d]
  }

  /** Decimal rendering of a natural number, as `f"{i}"` produces it: no sign,
      no leading zeros. */
  function NatToString(n: nat): (s: string)
    ensures 1 <= |s|
    ensures n < 10 <==> |s| == 1
    decreases n
  {
    if n < 10 then [DigitChar(n)] else NatToString(n / 10) + [DigitChar(n % 10)]
  }

  /** Different numbers render differently. */
  lemma {:induction false} NatToStringInjective(a: nat, b: nat)
    requires NatToString(a) == NatToString(b)
    ensures a == b
    decreases a
  {
    var s := NatToString(a);
    if a < 10 {
      assert b < 10;
      assert "0123456789"[a] == s[0] == "0123456789"[b];
    } else {
      assert b >= 10;
      assert s[|s| - 1] == DigitChar(a % 10) == DigitChar(b % 10);
      assert "0123456789"[a % 10] == "0123456789"[b % 10];
      assert NatToString(a / 10) == s[..|s| - 1] == NatToString(b / 10);
      NatToStringInjective(a / 10, b / 10);
    }
  }
}
