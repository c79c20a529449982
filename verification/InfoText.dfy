/** Normalisation of PlaceInfo free text: markup removed, line breaks and blanks collapsed.

Every result is in a normal form, and cleaning a result again changes nothing exactly when no line-break
tag is left in it. `"<<br>br"` is a text whose result still holds one.
 */
module InfoText {
  import opened Common
  import opened Patterns

  // ----- the four patterns

  predicate IsBreakName(a: char, b: char) {
    (a == 'b' || a == 'B' || a == 'v' || a == 'V') && (b == 'r' || b == 'R')
  }

  // \s*/?\s* from position i.
  function SkipSlash(s: string, i: nat): (j: nat)
    requires i <= |s|
    ensures i <= j <= |s|
  {
    var a := i + Run(s[i..], IsSpace);
    var b := if a < |s| && s[a] == '/' then a + 1 else a;
    b + Run(s[b..], IsSpace)
  }

  // <\s*/?\s*(?:br|vr)(?=[\s/<>]|$)\s*/?\s*[<>]?
  function BreakLength(s: string): (n: nat)
    ensures n <= |s|
    ensures n > 0 ==> s[0] == '<'
  {
    if s == "" || s[0] != '<' then 0
    else
      var k := SkipSlash(s, 1);
      if k + 2 > |s| || !IsBreakName(s[k], s[k + 1]) then 0
      else
        var e := k + 2;
        if e < |s| && !(IsSpace(s[e]) || s[e] == '/' || s[e] == '<' || s[e] == '>') then 0
        else
          var h := SkipSlash(s, e);
          if h < |s| && (s[h] == '<' || s[h] == '>') then h + 1 else h
  }

  // <[^>]+>
  function TagLength(s: string): (n: nat)
    ensures n <= |s|
    ensures n > 0 ==> s[0] == '<'
  {
    if s == "" || s[0] != '<' then 0
    else
      var r := Run(s[1..], c => c != '>');
      if r > 0 && 1 + r < |s| then r + 2 else 0
  }

  // [ \t]*\n[ \t\n]*
  function LineLength(s: string): (n: nat)
    ensures n <= |s|
  {
    var a := Run(s, IsBlank);
    if a < |s| && s[a] == '\n' then a + 1 + Run(s[a + 1..], IsBlankOrNewline) else 0
  }

  predicate IsBlankOrNewline(c: char) {
    IsBlank(c) || c == '\n'
  }

  // [ \t]{2,}
  function BlanksLength(s: string): (n: nat)
    ensures n <= |s|
  {
    var a := Run(s, IsBlank);
    if a >= 2 then a else 0
  }

  // ----- the cleaner

  function BlankToNone(value: Option<string>): Option<string> {
    if value.None? || Strip(value.value) == "" then None else Some(Strip(value.value))
  }

  function Clean(value: Option<string>): Option<string> {
    match BlankToNone(value)
    case None => None
    case Some(text) =>
      var result := Passes(text);
      if result == "" then None else Some(result)
  }

  function RemoveTags(text: string): string {
    Sub(Sub(text, BreakLength, "\n"), TagLength, "")
  }

  function CollapseWhite(text: string): string {
    Sub(Sub(text, LineLength, "\n"), BlanksLength, " ")
  }

  function Passes(text: string): string {
    Strip(CollapseWhite(RemoveTags(text)))
  }

  // ----- the normal form

  // A text that <[^>]+> matches as a whole.
  predicate IsTag(t: string) {
    |t| >= 3 && t[0] == '<' && t[|t| - 1] == '>' && forall i :: 0 < i < |t| - 1 ==> t[i] != '>'
  }

  predicate HasNoTag(s: string) {
    forall i, j :: 0 <= i <= j <= |s| ==> !IsTag(s[i..j])
  }

  // No blank line, and no blank next to a line break.
  predicate LinesTidy(s: string) {
    forall i :: 0 <= i < |s| - 1 ==>
      && !(s[i] == '\n' && IsBlankOrNewline(s[i + 1]))
      && !(IsBlank(s[i]) && s[i + 1] == '\n')
  }

  predicate BlanksSingle(s: string) {
    forall i :: 0 <= i < |s| - 1 ==> !(IsBlank(s[i]) && IsBlank(s[i + 1]))
  }

  predicate EndsTidy(s: string) {
    s != "" && !IsSpace(s[0]) && !IsSpace(s[|s| - 1])
  }

  ghost predicate Normal(s: string) {
    HasNoTag(s) && LinesTidy(s) && BlanksSingle(s) && EndsTidy(s)
  }

  // Every '<' is followed at once by '>' or has no '>' after it.
  ghost predicate Untagged(s: string) {
    forall i :: 0 <= i < |s| && s[i] == '<' ==> (i + 1 < |s| && s[i + 1] == '>') || '>' !in s[i..]
  }

  lemma UntaggedHasNoTag(s: string)
    requires Untagged(s)
    ensures HasNoTag(s)
  {
    forall i, j | 0 <= i <= j <= |s|
      ensures !IsTag(s[i..j])
    {
      var t := s[i..j];
      if |t| >= 3 && t[0] == '<' && t[|t| - 1] == '>' {
        assert s[i..][|t| - 1] == '>';
        assert t[1] == s[i + 1] == '>';
      }
    }
  }

  lemma UntaggedTail(s: string)
    requires Untagged(s) && s != ""
    ensures Untagged(s[1..])
  {
    var t := s[1..];
    forall i | 0 <= i < |t| && t[i] == '<'
      ensures (i + 1 < |t| && t[i + 1] == '>') || '>' !in t[i..]
    {
      assert t[i] == s[i + 1] && t[i..] == s[i + 1..];
    }
  }

  lemma UntaggedCons(c: char, s: string)
    requires Untagged(s)
    requires c == '<' ==> (s != "" && s[0] == '>') || '>' !in s
    ensures Untagged([c] + s)
  {
    var t := [c] + s;
    forall i | 0 <= i < |t| && t[i] == '<'
      ensures (i + 1 < |t| && t[i + 1] == '>') || '>' !in t[i..]
    {
      if i > 0 {
        assert t[i] == s[i - 1] && t[i..] == s[i - 1..];
      } else {
        assert t[0..] == t;
      }
    }
  }

  lemma UntaggedPart(r: string, s: string)
    requires Untagged(s) && PartOf(r, s)
    ensures Untagged(r)
  {
    var a, b :| 0 <= a <= b <= |s| && r == s[a..b];
    forall i | 0 <= i < |r| && r[i] == '<'
      ensures (i + 1 < |r| && r[i + 1] == '>') || '>' !in r[i..]
    {
      AngleInPart(s, a, b, i);
    }
  }

  lemma AngleInPart(s: string, a: nat, b: nat, i: nat)
    requires Untagged(s) && a <= b <= |s| && i < b - a && s[a..b][i] == '<'
    ensures
      var r := s[a..b];
      (i + 1 < |r| && r[i + 1] == '>') || '>' !in r[i..]
  {
    var tail := s[a..b][i..];
    assert forall k :: 0 <= k < |tail| ==> tail[k] == s[a + i + k];
    if a + i + 1 < |s| && s[a + i + 1] == '>' {
      assert |tail| == 1 ==> tail == [tail[0]];
    } else {
      var rest := s[a + i..];
      assert forall k :: 0 <= k < |tail| ==> tail[k] == rest[k];
    }
  }

  // ----- what each pass establishes

  lemma {:induction false} SubAddsNothing(s: string, m: Matcher, replacement: string, c: char)
    requires c !in replacement && c !in s
    ensures c !in Sub(s, m, replacement)
  {
    CountZero(s, c);
    CountZero(replacement, c);
    SubCount(s, m, replacement, c);
    CountZero(Sub(s, m, replacement), c);
  }

  lemma {:induction false} TagPassUntags(s: string)
    ensures Untagged(Sub(s, TagLength, ""))
  {
    if s != "" {
      var n := TagLength(s);
      if n > 0 {
        TagPassUntags(s[n..]);
        assert "" + Sub(s[n..], TagLength, "") == Sub(s[n..], TagLength, "");
      } else {
        var rest := Sub(s[1..], TagLength, "");
        TagPassUntags(s[1..]);
        if s[0] == '<' {
          var r := Run(s[1..], c => c != '>');
          if r < |s[1..]| {
            assert r == 0;
            assert rest[0] == s[1];
          } else {
            SubAddsNothing(s[1..], TagLength, "", '>');
          }
        }
        UntaggedCons(s[0], rest);
      }
    }
  }

  // A matcher of line breaks and blanks only, which never starts a match at any other character.
  ghost predicate MatchesWhite(m: Matcher) {
    forall t: string :: MatchesAt(t, m) ==> forall i :: 0 <= i < m(t) ==> IsBlankOrNewline(t[i])
  }

  lemma LineMatchesWhite()
    ensures MatchesWhite(LineLength)
  {
  }

  lemma BlanksMatchWhite()
    ensures MatchesWhite(BlanksLength)
  {
  }

  lemma {:induction false} WhitePassKeepsUntagged(s: string, m: Matcher, white: char)
    requires MatchesWhite(m) && IsBlankOrNewline(white) && Untagged(s)
    ensures Untagged(Sub(s, m, [white]))
  {
    if s != "" {
      if MatchesAt(s, m) {
        UntaggedFrom(s, m(s));
        WhitePassKeepsUntagged(s[m(s)..], m, white);
        UntaggedCons(white, Sub(s[m(s)..], m, [white]));
      } else {
        UntaggedTail(s);
        WhitePassKeepsUntagged(s[1..], m, white);
        if s[0] == '<' {
          assert s[0..] == s;
          if |s| > 1 && s[1] == '>' {
            assert !MatchesAt(s[1..], m);
          } else {
            assert '>' !in s[1..];
            SubAddsNothing(s[1..], m, [white], '>');
          }
        }
        UntaggedCons(s[0], Sub(s[1..], m, [white]));
      }
    }
  }

  lemma UntaggedFrom(s: string, n: nat)
    requires Untagged(s) && n <= |s|
    ensures Untagged(s[n..])
  {
    assert s[n..] == s[n..|s|];
    UntaggedPart(s[n..], s);
  }

  // The first character of a pass's output is the first character of the input unless a match starts there.
  lemma HeadKept(s: string, m: Matcher, replacement: string)
    requires s != "" && !MatchesAt(s, m)
    ensures Sub(s, m, replacement) != "" && Sub(s, m, replacement)[0] == s[0]
  {
  }

  lemma LinesTidyCons(c: char, s: string)
    requires LinesTidy(s)
    requires s != "" && c == '\n' ==> !IsBlankOrNewline(s[0])
    requires s != "" && IsBlank(c) ==> s[0] != '\n'
    ensures LinesTidy([c] + s)
  {
    var t := [c] + s;
    forall i | 0 <= i < |t| - 1
      ensures !(t[i] == '\n' && IsBlankOrNewline(t[i + 1])) && !(IsBlank(t[i]) && t[i + 1] == '\n')
    {
      if i > 0 {
        assert t[i] == s[i - 1] && t[i + 1] == s[i];
      }
    }
  }

  lemma {:induction false} LinePassTidies(s: string)
    ensures LinesTidy(Sub(s, LineLength, "\n"))
  {
    if s != "" {
      var n := LineLength(s);
      if n > 0 {
        LinePassTidies(s[n..]);
        var rest := Sub(s[n..], LineLength, "\n");
        if n < |s| {
          AfterLineMatch(s);
          HeadKept(s[n..], LineLength, "\n");
        }
        LinesTidyCons('\n', rest);
      } else {
        LinePassTidies(s[1..]);
        var rest := Sub(s[1..], LineLength, "\n");
        if |s| > 1 && IsBlank(s[0]) {
          BlankBeforeNoLineMatch(s);
          HeadKept(s[1..], LineLength, "\n");
        }
        LinesTidyCons(s[0], rest);
      }
    }
  }

  lemma AfterLineMatch(s: string)
    requires 0 < LineLength(s) < |s|
    ensures !IsBlankOrNewline(s[LineLength(s)]) && LineLength(s[LineLength(s)..]) == 0
  {
    var n := LineLength(s);
    var a := Run(s, IsBlank);
    var r := Run(s[a + 1..], IsBlankOrNewline);
    assert s[a + 1..][r] == s[n];
    assert s[n..][0] == s[n];
  }

  lemma BlankBeforeNoLineMatch(s: string)
    requires |s| > 1 && IsBlank(s[0]) && LineLength(s) == 0
    ensures LineLength(s[1..]) == 0 && s[1] != '\n'
  {
    var a := Run(s[1..], IsBlank);
    assert Run(s, IsBlank) == 1 + a;
    if a < |s[1..]| {
      assert s[1..][a] == s[1 + a];
    }
    assert s[1] == '\n' ==> a == 0;
  }

  lemma {:induction false} BlanksPassKeepsLines(s: string)
    requires LinesTidy(s)
    ensures LinesTidy(Sub(s, BlanksLength, " ")) && BlanksSingle(Sub(s, BlanksLength, " "))
  {
    if s != "" {
      var n := BlanksLength(s);
      if n > 0 {
        var tail := s[n..];
        assert forall i :: 0 <= i < |tail| ==> tail[i] == s[n + i];
        BlanksPassKeepsLines(tail);
        if tail != "" {
          assert !IsBlank(s[n]) && IsBlank(s[n - 1]);
          assert BlanksLength(tail) == 0;
          HeadKept(tail, BlanksLength, " ");
        }
        LinesTidyCons(' ', Sub(tail, BlanksLength, " "));
      } else {
        var tail := s[1..];
        assert forall i :: 0 <= i < |tail| ==> tail[i] == s[1 + i];
        BlanksPassKeepsLines(tail);
        if tail != "" && IsBlankOrNewline(s[0]) {
          OneBlank(s);
          HeadKept(tail, BlanksLength, " ");
        }
        LinesTidyCons(s[0], Sub(tail, BlanksLength, " "));
      }
    }
  }

  lemma OneBlank(s: string)
    requires |s| > 1 && IsBlankOrNewline(s[0]) && LinesTidy(s) && BlanksLength(s) == 0
    ensures !IsBlankOrNewline(s[1]) && BlanksLength(s[1..]) == 0
  {
    assert s[1..][0] == s[1];
    assert IsBlank(s[0]) ==> Run(s, IsBlank) == 1 + Run(s[1..], IsBlank);
  }

  lemma PartKeepsTidy(r: string, s: string)
    requires PartOf(r, s) && LinesTidy(s) && BlanksSingle(s)
    ensures LinesTidy(r) && BlanksSingle(r)
  {
    var a, b :| 0 <= a <= b <= |s| && r == s[a..b];
    assert forall i :: 0 <= i < |r| ==> r[i] == s[a + i];
  }

  // ----- main results

  lemma CollapsedIsTidy(text: string)
    requires Untagged(text)
    ensures Untagged(CollapseWhite(text)) && LinesTidy(CollapseWhite(text)) && BlanksSingle(CollapseWhite(text))
  {
    var joined := Sub(text, LineLength, "\n");
    LineMatchesWhite();
    WhitePassKeepsUntagged(text, LineLength, '\n');
    LinePassTidies(text);
    BlanksMatchWhite();
    WhitePassKeepsUntagged(joined, BlanksLength, ' ');
    BlanksPassKeepsLines(joined);
  }

  // Every result is in normal form.
  lemma CleanIsNormal(value: Option<string>)
    requires Clean(value).Some?
    ensures Normal(Clean(value).value) && Untagged(Clean(value).value)
  {
    var text := BlankToNone(value).value;
    var white := CollapseWhite(RemoveTags(text));
    TagPassUntags(Sub(text, BreakLength, "\n"));
    CollapsedIsTidy(RemoveTags(text));
    StripFacts(white);
    UntaggedPart(Strip(white), white);
    UntaggedHasNoTag(Strip(white));
    PartKeepsTidy(Strip(white), white);
  }

  lemma {:induction false} TagPassIdle(s: string)
    requires Untagged(s)
    ensures Sub(s, TagLength, "") == s
  {
    if s != "" {
      UntaggedTail(s);
      TagPassIdle(s[1..]);
      assert TagLength(s) == 0 by {
        if s[0] == '<' {
          var tail := s[1..];
          assert forall k :: 0 <= k < |tail| ==> tail[k] == s[1 + k];
          assert s[0..] == s;
        }
      }
    }
  }

  lemma {:induction false} LinePassIdle(s: string)
    requires LinesTidy(s)
    ensures Sub(s, LineLength, "\n") == s
  {
    if s != "" {
      var tail := s[1..];
      assert forall i :: 0 <= i < |tail| ==> tail[i] == s[1 + i];
      LinePassIdle(tail);
      var a := Run(s, IsBlank);
      if 0 < a < |s| {
        assert IsBlank(s[a - 1]);
      }
      if LineLength(s) > 0 {
        assert a == 0;
        assert Run(s[1..], IsBlankOrNewline) == 0;
      }
    }
  }

  lemma {:induction false} BlanksPassIdle(s: string)
    requires BlanksSingle(s)
    ensures Sub(s, BlanksLength, " ") == s
  {
    if s != "" {
      var tail := s[1..];
      assert forall i :: 0 <= i < |tail| ==> tail[i] == s[1 + i];
      BlanksPassIdle(tail);
      assert |s| > 1 ==> !(IsBlank(s[0]) && IsBlank(s[1]));
    }
  }

  lemma CleanStripped(text: string)
    requires EndsTidy(text)
    ensures Clean(Some(text)) == if Passes(text) == "" then None else Some(Passes(text))
  {
    StripTidy(text);
  }

  // Cleaning a result again changes nothing exactly when the line-break pattern finds nothing in it.
  lemma CleanAgain(value: Option<string>)
    requires Clean(value).Some?
    ensures
      var result := Clean(value).value;
      Clean(Some(result)) == Some(result) <==> !Found(result, BreakLength)
  {
    var result := Clean(value).value;
    CleanIsNormal(value);
    CleanStripped(result);
    if !Found(result, BreakLength) {
      PassesIdle(result);
    } else {
      PassesLoseAngle(result);
    }
  }

  // A line-break tag costs the text a '<'.
  lemma PassesLoseAngle(text: string)
    requires Found(text, BreakLength)
    ensures Count(Passes(text), '<') < Count(text, '<')
  {
    RemoveTagsCount(text);
    var plain := RemoveTags(text);
    CollapseCount(plain);
    var white := CollapseWhite(plain);
    StripFacts(white);
    CountPart(Strip(white), white, '<');
  }

  lemma RemoveTagsCount(text: string)
    requires Found(text, BreakLength)
    ensures Count(RemoveTags(text), '<') < Count(text, '<')
  {
    SubCountDrops(text, BreakLength, "\n", '<');
    SubCount(Sub(text, BreakLength, "\n"), TagLength, "", '<');
  }

  lemma CollapseCount(text: string)
    ensures Count(CollapseWhite(text), '<') <= Count(text, '<')
  {
    SubCount(text, LineLength, "\n", '<');
    SubCount(Sub(text, LineLength, "\n"), BlanksLength, " ", '<');
  }

  lemma PassesIdle(text: string)
    requires Normal(text) && Untagged(text) && !Found(text, BreakLength)
    ensures Passes(text) == text
  {
    SubWithoutMatch(text, BreakLength, "\n");
    TagPassIdle(text);
    LinePassIdle(text);
    BlanksPassIdle(text);
    StripTidy(text);
  }

  // In particular a result without '<' is a fixed point.
  lemma CleanAgainWithoutAngle(value: Option<string>)
    requires Clean(value).Some? && '<' !in Clean(value).value
    ensures Clean(Clean(value)) == Clean(value)
  {
    CleanAgain(value);
    var result := Clean(value).value;
    forall i | 0 <= i < |result|
      ensures !MatchesAt(result[i..], BreakLength)
    {
      assert result[i..][0] == result[i];
    }
  }

  // ----- the matchers against the patterns they stand for

  // A text that \s*/?\s* matches as a whole, with the slash at i if there is one.
  ghost predicate SpaceSlashAt(t: string, i: nat) {
    && i <= |t|
    && (forall j :: 0 <= j < |t| && j != i ==> IsSpace(t[j]))
    && (i < |t| ==> t[i] == '/')
  }

  ghost predicate IsSpaceSlash(t: string) {
    exists i: nat :: SpaceSlashAt(t, i)
  }

  lemma SkipSlashMatches(s: string, i: nat)
    requires i <= |s|
    ensures IsSpaceSlash(s[i..SkipSlash(s, i)])
  {
    var t := s[i..SkipSlash(s, i)];
    var a := Run(s[i..], IsSpace);
    assert forall j :: 0 <= j < a ==> t[j] == s[i..][j];
    if i + a < |s| && s[i + a] == '/' {
      var rest := s[i + a + 1..];
      assert forall j :: a < j < |t| ==> t[j] == rest[j - a - 1];
      assert SpaceSlashAt(t, a);
    } else {
      assert i + a < |s| ==> s[i + a..][0] == s[i..][a];
      assert SpaceSlashAt(t, |t|);
    }
  }

  // The skip is the only way to reach a character that is neither white nor a slash.
  lemma SkipSlashIsOnly(s: string, i: nat, k: nat)
    requires i <= k < |s| && IsSpaceSlash(s[i..k])
    requires !IsSpace(s[k]) && s[k] != '/'
    ensures SkipSlash(s, i) == k
  {
    hide IsSpace, Run, SpaceSlashAt;
    var m: nat :| SpaceSlashAt(s[i..k], m);
    WhiteButSlash(s, i, k, m);
    SlashIsNoSpace();
    RunUpTo(s, IsSpace, i, i + m);
    if i + m < k {
      RunUpTo(s, IsSpace, i + m + 1, k);
    } else {
      RunUpTo(s, IsSpace, k, k);
    }
  }

  lemma WhiteButSlash(s: string, i: nat, k: nat, m: nat)
    requires i <= k <= |s| && SpaceSlashAt(s[i..k], m)
    ensures i + m <= k && (i + m < k ==> s[i + m] == '/')
    ensures forall j :: i <= j < k && j != i + m ==> IsSpace(s[j])
  {
    hide IsSpace;
    forall j | i <= j < k && j != i + m
      ensures IsSpace(s[j])
    {
      assert s[i..k][j - i] == s[j];
    }
  }

  lemma SlashIsNoSpace()
    ensures !IsSpace('/')
  {
  }

  // From i the run goes on to the first k where it stops.
  lemma RunUpTo(s: string, p: char -> bool, i: nat, k: nat)
    requires i <= k < |s| && !p(s[k]) && forall j :: i <= j < k ==> p(s[j])
    ensures Run(s[i..], p) == k - i
  {
    var tail := s[i..];
    assert forall j {:trigger tail[j]} :: 0 <= j < |tail| ==> tail[j] == s[i + j];
    assert !p(tail[k - i]);
  }

  // What may follow the tag name: (?=[\s/<>]|$).
  predicate Boundary(s: string, e: nat) {
    e < |s| ==> IsSpace(s[e]) || s[e] == '/' || s[e] == '<' || s[e] == '>'
  }

  // The pattern matches at the start of s with its tag name at k.
  ghost predicate BreakAt(s: string, k: nat) {
    && 1 <= k && k + 2 <= |s|
    && s[0] == '<' && IsSpaceSlash(s[1..k]) && IsBreakName(s[k], s[k + 1]) && Boundary(s, k + 2)
  }

  // Characters of a class at the start are all taken.
  lemma RunTakes(s: string, p: char -> bool, n: nat)
    requires n <= |s| && forall i :: 0 <= i < n ==> p(s[i])
    ensures Run(s, p) >= n
  {
    var r := Run(s, p);
    if r < |s| {
      assert !p(s[r]);
    }
  }

  // And the skip is as long as any.
  lemma SkipSlashIsLongest(s: string, i: nat, h: nat)
    requires i <= h <= |s| && IsSpaceSlash(s[i..h])
    ensures h <= SkipSlash(s, i)
  {
    hide Run;
    var t := s[i..h];
    var m: nat :| SpaceSlashAt(t, m);
    var tail := s[i..];
    assert forall j :: 0 <= j < |t| ==> tail[j] == t[j];
    RunTakes(tail, IsSpace, m);
    if m < |t| {
      assert !IsSpace(tail[m]);
      assert Run(s[i..], IsSpace) == m;
      var rest := s[i + m + 1..];
      forall j | 0 <= j < h - i - m - 1
        ensures IsSpace(rest[j])
      {
        assert rest[j] == t[m + 1 + j];
      }
      RunTakes(rest, IsSpace, h - i - m - 1);
    }
  }

  // The pattern matches s[..n]: the tag name at k, a \s*/?\s* part up to h, then at most one '<' or '>'.
  ghost predicate BreakMatches(s: string, k: nat, h: nat, n: nat) {
    && BreakAt(s, k)
    && k + 2 <= h <= n <= |s|
    && IsSpaceSlash(s[k + 2..h])
    && (n == h || (n == h + 1 && (s[h] == '<' || s[h] == '>')))
  }

  // The line-break matcher matches exactly where the pattern does; what it takes is matched by the pattern, and
  // the pattern matches no longer prefix.
  lemma BreakMatcherExact(s: string)
    ensures BreakLength(s) > 0 <==> exists k: nat :: BreakAt(s, k)
    ensures BreakLength(s) > 0 ==> exists k: nat, h: nat :: BreakMatches(s, k, h, BreakLength(s))
    ensures forall k: nat, h: nat, n: nat :: BreakMatches(s, k, h, n) ==> n <= BreakLength(s)
  {
    hide SkipSlash, IsSpaceSlash, Run, IsSpace;
    if BreakLength(s) > 0 {
      var k := SkipSlash(s, 1);
      SkipSlashMatches(s, 1);
      SkipSlashMatches(s, k + 2);
      assert BreakAt(s, k);
      assert BreakMatches(s, k, SkipSlash(s, k + 2), BreakLength(s));
    }
    forall k: nat | BreakAt(s, k)
      ensures SkipSlash(s, 1) == k && BreakLength(s) > 0
    {
      NameIsPlain(s[k]);
      SkipSlashIsOnly(s, 1, k);
    }
    forall k: nat, h: nat, n: nat | BreakMatches(s, k, h, n)
      ensures n <= BreakLength(s)
    {
      BreakNoLonger(s, k, h, n);
    }
  }

  lemma NameIsPlain(c: char)
    requires c == 'b' || c == 'B' || c == 'v' || c == 'V' || c == '<' || c == '>'
    ensures !IsSpace(c) && c != '/'
  {
  }

  lemma BreakNoLonger(s: string, k: nat, h: nat, n: nat)
    requires BreakMatches(s, k, h, n)
    ensures n <= BreakLength(s)
  {
    hide SkipSlash, IsSpaceSlash, Run, IsSpace;
    NameIsPlain(s[k]);
    SkipSlashIsOnly(s, 1, k);
    SkipSlashIsLongest(s, k + 2, h);
    if n == h + 1 {
      NameIsPlain(s[h]);
      SkipSlashIsOnly(s, k + 2, h);
    }
  }

  // So does the tag matcher; it takes a tag, and the pattern matches no other prefix.
  lemma TagMatcherExact(s: string)
    ensures forall n :: 0 <= n <= |s| && IsTag(s[..n]) ==> n == TagLength(s)
    ensures TagLength(s) > 0 <==> exists n :: 0 <= n <= |s| && IsTag(s[..n])
    ensures TagLength(s) > 0 ==> IsTag(s[..TagLength(s)])
  {
    if s != "" && s[0] == '<' {
      var tail := s[1..];
      var r := Run(tail, c => c != '>');
      assert forall k :: 0 <= k < |tail| ==> tail[k] == s[k + 1];
      if r > 0 && 1 + r < |s| {
        assert IsTag(s[..r + 2]);
      }
      if n :| 0 <= n <= |s| && IsTag(s[..n]) {
        assert forall k :: 0 <= k < n ==> s[..n][k] == s[k];
        assert tail[n - 2] == '>' && tail[0] != '>';
      }
    } else {
      assert forall n :: 0 <= n <= |s| ==> !IsTag(s[..n]);
    }
  }

  // A result that is not a fixed point: a second '<' in front of a line-break tag survives, and meets
  // the letters left behind.
  lemma CleanTwiceCanDiffer(text: string, result: string)
    requires text == "<<br>br" && result == "<\nbr"
    ensures Clean(Some(text)) == Some(result)
    ensures Found(result, BreakLength)
  {
    CleanStripped(text);
    BreakPassExample(text, result);
    BreakLeftInExample(result);
    ExampleIsIdle(result);
    assert Passes(text) == result;
  }

  lemma ExampleIsIdle(result: string)
    requires result == "<\nbr"
    ensures Strip(CollapseWhite(Sub(result, TagLength, ""))) == result
  {
    hide Sub, Strip;
    TagPassIdle(result);
    LinePassIdle(result);
    BlanksPassIdle(result);
    StripTidy(result);
  }

  lemma BreakLeftInExample(result: string)
    requires result == "<\nbr"
    ensures Found(result, BreakLength)
  {
    var tail, rest := result[1..], result[2..];
    assert Run(tail, IsSpace) == 1 by {
      assert tail[1..] == rest;
    }
    assert SkipSlash(result, 1) == 2;
    assert BreakLength(result) >= 4;
    assert result[0..] == result;
  }

  lemma BreakPassExample(text: string, result: string)
    requires text == "<<br>br" && result == "<\nbr"
    ensures Sub(text, BreakLength, "\n") == result
  {
    hide Sub, MatchesAt;
    var tail := text[1..];
    StrayAngle(text);
    SubSteps(text, BreakLength, "\n");
    FirstBreak(tail);
    NoBreaks("br");
    assert [text[0]] + ("\n" + "br") == result;
  }

  // What one step of a pass does at a match, and elsewhere.
  lemma SubSteps(s: string, m: Matcher, replacement: string)
    requires s != ""
    ensures MatchesAt(s, m) ==> Sub(s, m, replacement) == replacement + Sub(s[m(s)..], m, replacement)
    ensures !MatchesAt(s, m) ==> Sub(s, m, replacement) == [s[0]] + Sub(s[1..], m, replacement)
  {
  }

  lemma StrayAngle(text: string)
    requires text == "<<br>br"
    ensures !MatchesAt(text, BreakLength)
  {
    NoRun(text, 1);
  }

  lemma FirstBreak(s: string)
    requires s == "<br>br"
    ensures Sub(s, BreakLength, "\n") == "\n" + Sub("br", BreakLength, "\n")
  {
    hide Sub;
    PlainBreak(s);
    assert s[4..] == "br";
    SubSteps(s, BreakLength, "\n");
  }

  lemma PlainBreak(s: string)
    requires |s| >= 4 && s[..4] == "<br>"
    ensures BreakLength(s) == 4
  {
    assert s[0] == s[..4][0] && s[1] == s[..4][1] && s[2] == s[..4][2] && s[3] == s[..4][3];
    NoRun(s, 1);
    NoRun(s, 3);
  }

  // Neither white nor a slash at i: nothing is skipped there.
  lemma NoRun(s: string, i: nat)
    requires i < |s| && !IsSpace(s[i]) && s[i] != '/'
    ensures SkipSlash(s, i) == i
  {
    assert s[i..][0] == s[i];
  }

  lemma NoBreaks(s: string)
    requires '<' !in s
    ensures Sub(s, BreakLength, "\n") == s
  {
    forall i | 0 <= i < |s|
      ensures !MatchesAt(s[i..], BreakLength)
    {
      assert s[i..][0] == s[i];
    }
    SubWithoutMatch(s, BreakLength, "\n");
  }
}
