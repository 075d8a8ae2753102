/**
 * The few Python 2 string operations the core relies on: `strip()`,
 * `lower()` and `find()`.  Byte strings (`str`, read from `cities.txt` or
 * typed into the search box) strip and lower-case ASCII only; the text that
 * Expat hands out is `unicode` and strips every Unicode white-space character.
 */
module Strings {

  /** White space for `str.strip()` on a Python 2 byte string. */
  predicate IsByteSpace(c: char)
  {
    c == ' ' || c == '\t' || c == '\n' || c == '\r' || c == '\U{B}' || c == '\U{C}'
  }

  /**
   * White space for `unicode.strip()` in Python 2.7 (`unicode.isspace`, the
   * Unicode 5.2 character database).
   */
  predicate IsUnicodeSpace(c: char)
  {
    || IsByteSpace(c)
    || ('\U{1C}' <= c <= '\U{1F}')
    || c == '\U{85}' || c == '\U{A0}' || c == '\U{1680}' || c == '\U{180E}'
    || ('\U{2000}' <= c <= '\U{200A}')
    || c == '\U{2028}' || c == '\U{2029}' || c == '\U{202F}' || c == '\U{205F}' || c == '\U{3000}'
  }

  /** Number of white-space characters at the start of `s`. */
  function LeadingSpace(s: string, isSpace: char -> bool): (n: nat)
    ensures n <= |s|
    ensures forall k :: 0 <= k < n ==> isSpace(s[k])
    ensures n < |s| ==> !isSpace(s[n])
  {
    if |s| == 0 || !isSpace(s[0]) then 0 else 1 + LeadingSpace(s[1..], isSpace)
  }

  /** Number of white-space characters at the end of `s`. */
  function TrailingSpace(s: string, isSpace: char -> bool): (n: nat)
    ensures n <= |s|
    ensures forall k :: |s| - n <= k < |s| ==> isSpace(s[k])
    ensures n < |s| ==> !isSpace(s[|s| - 1 - n])
  {
    if |s| == 0 || !isSpace(s[|s| - 1]) then 0 else 1 + TrailingSpace(s[..|s| - 1], isSpace)
  }

  /**
   * `s.strip()`: `s` without its leading and trailing white space.  The
   * result is a contiguous piece of `s` that neither starts nor ends with
   * white space, and everything cut away is white space.
   */
  function Strip(s: string, isSpace: char -> bool): (r: string)
    ensures |r| <= |s|
    ensures r == [] || (!isSpace(r[0]) && !isSpace(r[|r| - 1]))
    ensures r == [] <==> forall k :: 0 <= k < |s| ==> isSpace(s[k])
    ensures r != [] ==> r == s[LeadingSpace(s, isSpace)..|s| - TrailingSpace(s, isSpace)]
  {
    var lead := LeadingSpace(s, isSpace);
    if lead == |s| then
      []
    else
      var trail := TrailingSpace(s, isSpace);
      assert !isSpace(s[lead]);
      assert trail < |s| - lead;
      s[lead..|s| - trail]
  }

  lemma {:induction false} StripIsIdempotent(s: string, isSpace: char -> bool)
    ensures Strip(Strip(s, isSpace), isSpace) == Strip(s, isSpace)
  {
    var r := Strip(s, isSpace);
    if r != [] {
      assert LeadingSpace(r, isSpace) == 0;
      assert TrailingSpace(r, isSpace) == 0;
    }
  }

  function LowerChar(c: char): char
  {
    if 'A' <= c <= 'Z' then (c as int - 'A' as int + 'a' as int) as char else c
  }

  /** `s.lower()` on a byte string: ASCII capitals become small letters. */
  function Lower(s: string): (r: string)
    ensures |r| == |s|
    ensures forall k :: 0 <= k < |s| ==> r[k] == LowerChar(s[k])
    ensures forall k :: 0 <= k < |r| ==> !('A' <= r[k] <= 'Z')
  {
    seq(|s|, k requires 0 <= k < |s| => LowerChar(s[k]))
  }

  predicate OccursAt(s: string, sub: string, i: nat)
  {
    i + |sub| <= |s| && s[i..i + |sub|] == sub
  }

  /**
   * `s.find(sub)`: the lowest index at which `sub` occurs in `s`, or -1 when
   * it occurs nowhere (the empty string occurs at 0).
   */
  function Find(s: string, sub: string): (r: int)
    ensures -1 <= r <= |s|
    ensures r >= 0 ==> OccursAt(s, sub, r)
    ensures r >= 0 ==> forall i: nat :: i < r ==> !OccursAt(s, sub, i)
    ensures r == -1 <==> forall i: nat :: !OccursAt(s, sub, i)
  {
    if |sub| > |s| then
      -1
    else if s[..|sub|] == sub then
      assert OccursAt(s, sub, 0);
      0
    else
      assert !OccursAt(s, sub, 0);
      var k := Find(s[1..], sub);
      ShiftedOccurrence(s, sub);
      assert forall i: nat :: OccursAt(s, sub, i) ==> i == 0 || OccursAt(s[1..], sub, i - 1);
      if k == -1 then -1 else k + 1
  }

  /** An occurrence past the start of `s` is an occurrence in `s[1..]`. */
  lemma ShiftedOccurrence(s: string, sub: string)
    requires |s| > 0
    ensures forall i: nat :: OccursAt(s[1..], sub, i) <==> OccursAt(s, sub, i + 1)
  {
    forall i: nat
      ensures OccursAt(s[1..], sub, i) <==> OccursAt(s, sub, i + 1)
    {
      if i + |sub| <= |s| - 1 {
        assert s[1..][i..i + |sub|] == s[i + 1..i + 1 + |sub|];
      }
    }
  }

  /** Lower-casing keeps prefixes, so what occurs in `Lower(t)` occurs in `Lower(s)` for any `s` extending `t`. */
  lemma OccursInExtension(t: string, s: string, sub: string, i: nat)
    requires |t| <= |s| && s[..|t|] == t && OccursAt(Lower(t), sub, i)
    ensures OccursAt(Lower(s), sub, i)
  {
    assert Lower(s)[i..i + |sub|] == Lower(t)[i..i + |sub|];
  }

  /** `s.find(sub) > -1`, the containment test that the source writes out. */
  predicate Contains(s: string, sub: string)
  {
    Find(s, sub) > -1
  }
}
