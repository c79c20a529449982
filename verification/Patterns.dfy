/** Text scanning: Python's character classes, `strip`, and `re.sub` for patterns without lookbehind.

A pattern is given by its matcher: the length of the match at the start of a text, 0 for no match.
`Sub` replaces leftmost non-overlapping matches.
 */
module Patterns {

  // str.isspace, which is also what \s matches.
  predicate IsSpace(c: char) {
    || '\t' <= c <= '\r'
    || '\U{1C}' <= c <= ' '
    || c == '\U{85}' || c == '\U{A0}' || c == '\U{1680}'
    || '\U{2000}' <= c <= '\U{200A}'
    || c == '\U{2028}' || c == '\U{2029}' || c == '\U{202F}' || c == '\U{205F}' || c == '\U{3000}'
  }

  predicate IsBlank(c: char) {
    c == ' ' || c == '\t'
  }

  // Length of the longest prefix of characters in the class.
  function Run(s: string, p: char -> bool): (n: nat)
    ensures n <= |s|
    ensures forall i :: 0 <= i < n ==> p(s[i])
    ensures n < |s| ==> !p(s[n])
  {
    if s == "" || !p(s[0]) then 0 else 1 + Run(s[1..], p)
  }

  function StripLeft(s: string): (r: string)
    ensures r != "" ==> !IsSpace(r[0])
    ensures |r| <= |s| && r == s[|s| - |r|..]
  {
    if s != "" && IsSpace(s[0]) then StripLeft(s[1..]) else s
  }

  function StripRight(s: string): (r: string)
    ensures r != "" ==> !IsSpace(r[|r| - 1])
    ensures r <= s
  {
    if s != "" && IsSpace(s[|s| - 1]) then StripRight(s[..|s| - 1]) else s
  }

  function Strip(s: string): string {
    StripRight(StripLeft(s))
  }

  type Matcher = string -> nat

  predicate MatchesAt(s: string, m: Matcher) {
    0 < m(s) <= |s|
  }

  function Sub(s: string, m: Matcher, replacement: string): string {
    if s == "" then ""
    else if MatchesAt(s, m) then replacement + Sub(s[m(s)..], m, replacement)
    else [s[0]] + Sub(s[1..], m, replacement)
  }

  // re.search finds something.
  ghost predicate Found(s: string, m: Matcher) {
    exists i :: 0 <= i < |s| && MatchesAt(s[i..], m)
  }

  function Count(s: string, c: char): nat {
    if s == "" then 0 else (if s[0] == c then 1 else 0) + Count(s[1..], c)
  }

  // ----- facts about strip

  // Stripping cuts out a contiguous part.
  ghost predicate PartOf(r: string, s: string) {
    exists a, b :: 0 <= a <= b <= |s| && r == s[a..b]
  }

  lemma StripFacts(s: string)
    ensures PartOf(Strip(s), s)
    ensures Strip(s) != "" ==> !IsSpace(Strip(s)[0]) && !IsSpace(Strip(s)[|Strip(s)| - 1])
  {
    var l := StripLeft(s);
    var r := StripRight(l);
    hide StripLeft, StripRight, IsSpace;
    var a := |s| - |l|;
    if r != "" {
      assert r[0] == l[0];
    }
    assert r == s[a..a + |r|];
  }

  lemma StripTidy(s: string)
    requires s != "" ==> !IsSpace(s[0]) && !IsSpace(s[|s| - 1])
    ensures Strip(s) == s
  {
  }

  // ----- facts about substitution

  lemma {:induction false} SubWithoutMatch(s: string, m: Matcher, replacement: string)
    requires !Found(s, m)
    ensures Sub(s, m, replacement) == s
  {
    if s != "" {
      assert s[0..] == s;
      FoundInTail(s, m);
      SubWithoutMatch(s[1..], m, replacement);
    }
  }

  lemma FoundIsSomewhere(s: string, m: Matcher)
    requires Found(s, m)
    ensures s != ""
  {
  }

  lemma FoundInTail(s: string, m: Matcher)
    requires s != ""
    ensures Found(s, m) <==> MatchesAt(s, m) || Found(s[1..], m)
  {
    assert s[0..] == s;
    if Found(s[1..], m) {
      var i :| 0 <= i < |s[1..]| && MatchesAt(s[1..][i..], m);
      assert s[1..][i..] == s[i + 1..];
    }
    if i :| 0 <= i < |s| && MatchesAt(s[i..], m) {
      if i > 0 {
        assert s[1..][i - 1..] == s[i..];
      }
    }
  }

  lemma {:induction false} CountConcat(a: string, b: string, c: char)
    ensures Count(a + b, c) == Count(a, c) + Count(b, c)
  {
    if a == "" {
      assert a + b == b;
    } else {
      CountConcat(a[1..], b, c);
      assert (a + b)[1..] == a[1..] + b;
    }
  }

  lemma CountPart(r: string, s: string, c: char)
    requires PartOf(r, s)
    ensures Count(r, c) <= Count(s, c)
  {
    hide Count;
    var a, b :| 0 <= a <= b <= |s| && r == s[a..b];
    CountSplit(s, a, c);
    CountSplit(s[a..], b - a, c);
    assert s[a..][..b - a] == r;
  }

  lemma CountSplit(s: string, n: nat, c: char)
    requires n <= |s|
    ensures Count(s, c) == Count(s[..n], c) + Count(s[n..], c)
  {
    CountConcat(s[..n], s[n..], c);
    assert s == s[..n] + s[n..];
  }

  // Replacing by text free of c never adds a c, and takes one away when a match starts with c.
  lemma {:induction false} SubCount(s: string, m: Matcher, replacement: string, c: char)
    requires Count(replacement, c) == 0
    ensures Count(Sub(s, m, replacement), c) <= Count(s, c)
  {
    if s != "" {
      if MatchesAt(s, m) {
        var n := m(s);
        SubCount(s[n..], m, replacement, c);
        CountConcat(replacement, Sub(s[n..], m, replacement), c);
        CountConcat(s[..n], s[n..], c);
        assert s == s[..n] + s[n..];
      } else {
        SubCount(s[1..], m, replacement, c);
        CountConcat([s[0]], Sub(s[1..], m, replacement), c);
      }
    }
  }

  lemma {:induction false} SubCountDrops(s: string, m: Matcher, replacement: string, c: char)
    requires Count(replacement, c) == 0
    requires forall t :: MatchesAt(t, m) ==> t[0] == c
    requires Found(s, m)
    ensures Count(Sub(s, m, replacement), c) < Count(s, c)
  {
    hide Found;
    FoundIsSomewhere(s, m);
    FoundInTail(s, m);
    if MatchesAt(s, m) {
      var n := m(s);
      SubCount(s[n..], m, replacement, c);
      CountConcat(replacement, Sub(s[n..], m, replacement), c);
      CountConcat(s[..n], s[n..], c);
      assert s == s[..n] + s[n..];
    } else {
      SubCountDrops(s[1..], m, replacement, c);
      CountConcat([s[0]], Sub(s[1..], m, replacement), c);
    }
  }

  lemma {:induction false} CountZero(s: string, c: char)
    ensures Count(s, c) == 0 <==> c !in s
  {
    if s != "" {
      CountZero(s[1..], c);
      assert s == [s[0]] + s[1..];
    }
  }
}
