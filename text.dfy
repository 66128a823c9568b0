/**
  The handful of Python string operations the request pipeline relies on,
  written over `string` (= seq<char>): `str.isspace`, `str.strip`,
  `str.lower` and the substring test `needle in text`.
 */
module Text {

  /** Python's `str.isspace` for one character: the code points Python treats
      as whitespace (tab to carriage return, the four information separators,
      space, NEL, NBSP, the Ogham space mark, the general-punctuation spaces,
      the line and paragraph separators and the ideographic space). */
  predicate IsSpace(c: char) {
    || ('\t' <= c <= '\r')
    || ('\U{1C}' <= c <= ' ')
    || c == '\U{85}' || c == '\U{A0}' || c == '\U{1680}'
    || ('\U{2000}' <= c <= '\U{200A}')
    || c == '\U{2028}' || c == '\U{2029}' || c == '\U{202F}' || c == '\U{205F}'
    || c == '\U{3000}'
  }

  /** Every character is whitespace (the empty string included). */
  predicate IsBlank(s: string) {
    forall i :: 0 <= i < |s| ==> IsSpace(s[i])
  }

  predicate StartsWith(s: string, prefix: string) {
    |prefix| <= |s| && s[..|prefix|] == prefix
  }

  predicate EndsWith(s: string, suffix: string) {
    |suffix| <= |s| && s[|s| - |suffix|..] == suffix
  }

  /** How many whitespace characters `s` starts with. */
  function LeadingSpaces(s: string): (n: nat)
    ensures n <= |s| && IsBlank(s[..n])
    ensures n < |s| ==> !IsSpace(s[n])
  {
    if s != [] && IsSpace(s[0]) then
      var n := 1 + LeadingSpaces(s[1..]);
      assert s[..n] == [s[0]] + s[1..][..n - 1];
      n
    else 0
  }

  /** How many whitespace characters `s` ends with. */
  function TrailingSpaces(s: string): (n: nat)
    ensures n <= |s| && IsBlank(s[|s| - n..])
    ensures n < |s| ==> !IsSpace(s[|s| - n - 1])
  {
    if s != [] && IsSpace(s[|s| - 1]) then
      var n := 1 + TrailingSpaces(s[..|s| - 1]);
      assert s[|s| - n..] == s[..|s| - 1][|s| - n..] + [s[|s| - 1]];
      n
    else 0
  }

  /** `s.lstrip()`. */
  function TrimLeft(s: string): string {
    s[LeadingSpaces(s)..]
  }

  /** `s.rstrip()`. */
  function TrimRight(s: string): string {
    s[..|s| - TrailingSpaces(s)]
  }

  /** `r` is the slice of `s` at `i`, with only whitespace around it in `s`. */
  ghost predicate StrippedAt(s: string, r: string, i: int) {
    && 0 <= i && i + |r| <= |s| && r == s[i..i + |r|]
    && IsBlank(s[..i]) && IsBlank(s[i + |r|..])
  }

  /** `s.strip()`: `s` without its leading and trailing whitespace, scanning
      from the left first and then from the right over what is left. The
      result is a slice of `s` with only whitespace cut on either side, it
      neither starts nor ends with whitespace, and it is empty exactly when
      `s` is blank. */
  function Strip(s: string): (r: string)
    ensures exists i :: StrippedAt(s, r, i)
    ensures r == [] || (!IsSpace(r[0]) && !IsSpace(r[|r| - 1]))
    ensures r == [] <==> IsBlank(s)
  {
    StripSlice(s);
    StripEmpty(s);
    TrimRight(TrimLeft(s))
  }

  lemma StripSlice(s: string)
    ensures StrippedAt(s, TrimRight(TrimLeft(s)), LeadingSpaces(s))
  {
    var left := TrimLeft(s);
    TrimLeftIsSuffix(s);
    TrimRightIsPrefix(left);
    StrippedBetween(s, LeadingSpaces(s), left, TrailingSpaces(left));
  }

  lemma TrimLeftIsSuffix(s: string)
    ensures LeadingSpaces(s) <= |s| && TrimLeft(s) == s[LeadingSpaces(s)..] && IsBlank(s[..LeadingSpaces(s)])
  {
  }

  lemma TrimRightIsPrefix(s: string)
    ensures TrailingSpaces(s) <= |s| && TrimRight(s) == s[..|s| - TrailingSpaces(s)]
    ensures IsBlank(s[|s| - TrailingSpaces(s)..])
  {
  }

  /** Cutting `i` blank characters in front and `m` blank characters behind
      leaves a slice of `s` at `i`. */
  lemma StrippedBetween(s: string, i: nat, left: string, m: nat)
    requires i <= |s| && left == s[i..] && m <= |left|
    requires IsBlank(s[..i]) && IsBlank(left[|left| - m..])
    ensures StrippedAt(s, left[..|left| - m], i)
  {
    assert left[|left| - m..] == s[|s| - m..];
  }

  lemma StripEmpty(s: string)
    ensures TrimRight(TrimLeft(s)) == [] <==> IsBlank(s)
  {
    var i := LeadingSpaces(s);
    var left := s[i..];
    var m := TrailingSpaces(left);
    if m == |left| {
      assert left[|left| - m..] == left;
      assert s == s[..i] + left;
      BlankAppend(s[..i], left);
    } else {
      assert left[0] == s[i];
      assert !IsSpace(s[i]);
    }
  }

  lemma BlankAppend(a: string, b: string)
    requires IsBlank(a) && IsBlank(b)
    ensures IsBlank(a + b)
  {
  }

  /** Stripping twice is stripping once. */
  lemma StripIdempotent(s: string)
    ensures Strip(Strip(s)) == Strip(s)
  {
    var r := Strip(s);
    if r != [] {
      assert TrimLeft(r) == r;
      assert TrimRight(r) == r;
    }
  }

  /** The stripped text is the left-stripped text with its trailing whitespace cut. */
  lemma StripIsPrefixOfTrimLeft(s: string)
    ensures StartsWith(TrimLeft(s), Strip(s))
  {
  }

  /** Appending text that ends in a non-space character to a non-blank `a`:
      stripping cuts only the leading whitespace of `a`. */
  lemma StripAppend(a: string, b: string)
    requires !IsBlank(a)
    requires b != [] && !IsSpace(b[|b| - 1])
    ensures Strip(a + b) == TrimLeft(a) + b
  {
    LeadingSpacesAppend(a, b);
    var n := LeadingSpaces(a);
    assert (a + b)[n..] == a[n..] + b;
    var t := a[n..] + b;
    assert t[|t| - 1] == b[|b| - 1];
    assert TrailingSpaces(t) == 0;
  }

  /** Text after a non-blank prefix does not change its leading-space count. */
  lemma {:induction false} LeadingSpacesAppend(a: string, b: string)
    requires !IsBlank(a)
    ensures LeadingSpaces(a + b) == LeadingSpaces(a)
  {
    assert (a + b)[0] == a[0];
    if IsSpace(a[0]) {
      assert !IsBlank(a[1..]) by {
        var k :| 0 <= k < |a| && !IsSpace(a[k]);
        assert a[1..][k - 1] == a[k];
      }
      assert (a + b)[1..] == a[1..] + b;
      LeadingSpacesAppend(a[1..], b);
    }
  }

  /** A blank prefix is skipped entirely by the left scan. */
  lemma {:induction false} LeadingSpacesBlankPrefix(a: string, b: string)
    requires IsBlank(a)
    ensures LeadingSpaces(a + b) == |a| + LeadingSpaces(b)
  {
    if a != [] {
      assert (a + b)[0] == a[0];
      assert (a + b)[1..] == a[1..] + b;
      LeadingSpacesBlankPrefix(a[1..], b);
    } else {
      assert a + b == b;
    }
  }

  /** Stripping a blank string followed by `b` is stripping `b`. */
  lemma StripBlankPrefix(a: string, b: string)
    requires IsBlank(a)
    ensures Strip(a + b) == Strip(b)
  {
    assert TrimLeft(a + b) == TrimLeft(b) by {
      LeadingSpacesBlankPrefix(a, b);
      assert (a + b)[|a| + LeadingSpaces(b)..] == b[LeadingSpaces(b)..];
    }
  }

  /** Python's `str.lower` on one character, restricted to ASCII letters. */
  function LowerChar(c: char): (d: char)
    ensures !('A' <= d <= 'Z')
    ensures 'a' <= d <= 'z' <==> ('a' <= c <= 'z' || 'A' <= c <= 'Z')
  {
    if 'A' <= c <= 'Z' then (c as int - 'A' as int + 'a' as int) as char else c
  }

  /** `s.lower()`: every character mapped by LowerChar, in place. */
  function Lower(s: string): (r: string)
    ensures |r| == |s|
    ensures forall i :: 0 <= i < |s| ==> r[i] == LowerChar(s[i])
  {
    if s == [] then [] else [LowerChar(s[0])] + Lower(s[1..])
  }

  /** Lower-casing a lower-cased string changes nothing. */
  lemma LowerIdempotent(s: string)
    ensures Lower(Lower(s)) == Lower(s)
  {
    var l := Lower(s);
    assert forall i :: 0 <= i < |l| ==> Lower(l)[i] == l[i];
  }

  /** Python's `needle in text` for strings, as a left-to-right scan: does
      `needle` start here, or somewhere further right? */
  predicate Contains(text: string, needle: string)
    decreases |text|
  {
    |needle| <= |text| && (text[..|needle|] == needle || Contains(text[1..], needle))
  }

  /** `needle` occurs in `text` starting at index `i`. */
  ghost predicate OccursAt(text: string, needle: string, i: int) {
    0 <= i && i + |needle| <= |text| && text[i..i + |needle|] == needle
  }

  /** The scan finds `needle` exactly when it occurs at some index. */
  lemma {:induction false} ContainsIffOccurs(text: string, needle: string)
    ensures Contains(text, needle) <==> exists i :: OccursAt(text, needle, i)
    decreases |text|
  {
    if Contains(text, needle) {
      if text[..|needle|] == needle {
        assert OccursAt(text, needle, 0);
      } else {
        ContainsIffOccurs(text[1..], needle);
        var i :| OccursAt(text[1..], needle, i);
        assert text[i + 1..i + 1 + |needle|] == text[1..][i..i + |needle|];
        assert OccursAt(text, needle, i + 1);
      }
    }
    if exists i :: OccursAt(text, needle, i) {
      var i :| OccursAt(text, needle, i);
      if i > 0 {
        assert text[1..][i - 1..i - 1 + |needle|] == text[i..i + |needle|];
        assert OccursAt(text[1..], needle, i - 1);
        ContainsIffOccurs(text[1..], needle);
      }
    }
  }

  /** A witnessed occurrence is found by the scan. */
  lemma ContainsAt(text: string, needle: string, i: int)
    requires OccursAt(text, needle, i)
    ensures Contains(text, needle)
  {
    ContainsIffOccurs(text, needle);
  }

  /** A string with no whitespace at either end is left alone by stripping. */
  lemma StripUnchanged(s: string)
    requires s != [] && !IsSpace(s[0]) && !IsSpace(s[|s| - 1])
    ensures Strip(s) == s
  {
    assert LeadingSpaces(s) == 0;
    assert s[0..] == s;
    assert TrailingSpaces(s) == 0;
  }

  /** Blank text in front of a string that starts and ends with a non-space
      character is all that stripping removes. */
  lemma StripAfterBlank(a: string, b: string)
    requires IsBlank(a)
    requires b != [] && !IsSpace(b[0]) && !IsSpace(b[|b| - 1])
    ensures Strip(a + b) == b
  {
    StripBlankPrefix(a, b);
    StripUnchanged(b);
  }

  /** Appending keeps a prefix, puts the appended text at the end, and the
      middle part of a three-way concatenation occurs right after the first. */
  lemma AppendKeepsPieces(a: string, b: string, c: string)
    ensures StartsWith(a + b + c, a)
    ensures EndsWith(a + b + c, c)
    ensures OccursAt(a + b + c, b, |a|) && Contains(a + b + c, b)
  {
    var s := a + b + c;
    assert s[..|a|] == a;
    assert s[|s| - |c|..] == c;
    assert s[|a|..|a| + |b|] == b;
    ContainsAt(s, b, |a|);
  }

  /** In `a + b + c + d`: it starts with `a`, `c` occurs right after `a + b`,
      and it ends with `c + d`. */
  lemma PiecesOfFour(a: string, b: string, c: string, d: string)
    ensures var s := a + b + c + d;
      && StartsWith(s, a) && OccursAt(s, c, |a| + |b|) && Contains(s, c) && EndsWith(s, c + d)
  {
    var s := a + b + c + d;
    AppendKeepsPieces(a + b, c, d);
    assert s[..|a|] == a;
    assert s[|s| - |c + d|..] == c + d;
  }

  /** A string that starts with `p` and gets `t` appended starts with and
      contains `p` and ends with `t`. */
  lemma PrefixThenSuffix(s: string, p: string, t: string)
    requires StartsWith(s, p)
    ensures StartsWith(s + t, p) && Contains(s + t, p) && EndsWith(s + t, t)
  {
    StartsWithExtend(s, p, t);
    assert (s + t)[0..|p|] == p;
    ContainsAt(s + t, p, 0);
    assert (s + t)[|s + t| - |t|..] == t;
  }

  lemma StartsWithExtend(s: string, p: string, t: string)
    requires StartsWith(s, p)
    ensures StartsWith(s + t, p)
  {
    assert (s + t)[..|p|] == s[..|p|];
  }

  /** An occurrence inside a slice of `s` is an occurrence in `s`. */
  lemma ContainsFromSlice(s: string, k: int, r: string, needle: string)
    requires 0 <= k && k + |r| <= |s| && r == s[k..k + |r|]
    requires Contains(r, needle)
    ensures Contains(s, needle)
  {
    ContainsIffOccurs(r, needle);
    var i :| OccursAt(r, needle, i);
    forall j | 0 <= j < |needle| ensures s[k + i + j] == needle[j] {
      assert r[i + j] == needle[j];
    }
    assert s[k + i..k + i + |needle|] == needle;
    ContainsAt(s, needle, k + i);
  }

  /** A needle without line breaks is not found in `a + d` when it is in
      neither part and `d` starts with a line break: no occurrence can
      straddle the two. */
  lemma NotContainsAcrossLineBreak(a: string, d: string, needle: string)
    requires needle != [] && '\n' !in needle
    requires d != [] && d[0] == '\n'
    requires !Contains(a, needle) && !Contains(d, needle)
    ensures !Contains(a + d, needle)
  {
    var s := a + d;
    ContainsIffOccurs(a, needle);
    ContainsIffOccurs(d, needle);
    forall i | 0 <= i && i + |needle| <= |s| ensures !OccursAt(s, needle, i) {
      if i + |needle| <= |a| {
        assert s[i..i + |needle|] == a[i..i + |needle|];
        assert !OccursAt(a, needle, i);
      } else if i <= |a| {
        var j := |a| - i;
        assert s[i..i + |needle|][j] == '\n';
        assert needle[j] in needle;
      } else {
        assert s[i..i + |needle|] == d[i - |a|..i - |a| + |needle|];
        assert !OccursAt(d, needle, i - |a|);
      }
    }
    ContainsIffOccurs(s, needle);
  }
}
