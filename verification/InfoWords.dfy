/** What cleaning a text keeps: the words stay as they are and in order, and what stands between two of them becomes a
line break, a blank or nothing, by a fixed rule.
 */
module InfoWords {
  import opened Common
  import opened Patterns
  import opened InfoText

  // ----- texts made of words

  predicate IsPlain(c: char) {
    !IsSpace(c) && c != '<'
  }

  predicate IsWord(w: string) {
    w != "" && forall i :: 0 <= i < |w| ==> IsPlain(w[i])
  }

  /** What stands between two words: nothing, a line-break tag, another tag, or blanks and line ends. */
  datatype Between = Nothing | LineBreak(tag: string) | Markup(tag: string) | Gap(white: string) {
    function Text(): string {
      match this
      case Nothing => ""
      case LineBreak(tag) => tag
      case Markup(tag) => tag
      case Gap(white) => white
    }

    ghost predicate Valid() {
      match this
      case Nothing => true
      case LineBreak(tag) => IsBreakTag(tag)
      case Markup(tag) => IsTag(tag) && '<' !in tag[1..] && forall k: nat :: !BreakAt(tag, k)
      case Gap(white) => forall i :: 0 <= i < |white| ==> white[i] == ' ' || white[i] == '\t' || white[i] == '\n'
    }

    // A line break for a line-break tag and for white with a line end in it, nothing for another tag, one blank for
    // several.
    function Cleaned(): string {
      match this
      case Nothing => ""
      case LineBreak(_) => "\n"
      case Markup(_) => ""
      case Gap(white) => if '\n' in white then "\n" else if |white| >= 2 then " " else white
    }
  }

  // The line-break pattern matches the tag as a whole, and it is closed.
  ghost predicate IsBreakTag(tag: string) {
    exists k: nat :: IsBreakNamedAt(tag, k)
  }

  ghost predicate IsBreakNamedAt(tag: string, k: nat) {
    |tag| > 0 && tag[|tag| - 1] == '>' && BreakMatches(tag, k, |tag| - 1, |tag|)
  }

  datatype Piece = Piece(before: Between, word: string)

  // The text of the pieces when what stands before each word reads as `show` says.
  function Shown(pieces: seq<Piece>, show: Between -> string): string {
    if pieces == [] then "" else show(pieces[0].before) + (pieces[0].word + Shown(pieces[1..], show))
  }

  // Words with something between them; nothing stands before the first.
  ghost predicate ValidPieces(pieces: seq<Piece>) {
    && pieces != []
    && pieces[0].before.Nothing?
    && forall i :: 0 <= i < |pieces| ==> pieces[i].before.Valid() && IsWord(pieces[i].word)
  }

  // ----- one pass

  predicate StartsPlain(s: string) {
    s != "" && IsPlain(s[0])
  }

  ghost predicate SkipsPlain(m: Matcher) {
    forall s: string :: StartsPlain(s) ==> !MatchesAt(s, m)
  }

  // Between two words the pass turns `before` into `after`.
  ghost predicate Turns(m: Matcher, replacement: string, before: string, after: string) {
    forall rest: string :: StartsPlain(rest) ==>
      Sub(before + rest, m, replacement) == after + Sub(rest, m, replacement)
  }

  lemma {:induction false} WordStays(m: Matcher, replacement: string, word: string, rest: string)
    requires SkipsPlain(m) && forall i :: 0 <= i < |word| ==> IsPlain(word[i])
    ensures Sub(word + rest, m, replacement) == word + Sub(rest, m, replacement)
  {
    var all := word + rest;
    if word == "" {
      assert all == rest;
    } else {
      WordStays(m, replacement, word[1..], rest);
      assert all[1..] == word[1..] + rest && StartsPlain(all);
      OneStays(m, replacement, all);
      OneMore(word, Sub(rest, m, replacement));
    }
  }

  lemma OneStays(m: Matcher, replacement: string, s: string)
    requires s != "" && !MatchesAt(s, m)
    ensures Sub(s, m, replacement) == [s[0]] + Sub(s[1..], m, replacement)
  {
  }

  lemma OneMore(word: string, rest: string)
    requires word != ""
    ensures [word[0]] + (word[1..] + rest) == word + rest
  {
  }

  lemma {:induction false} PassOnPieces(m: Matcher, replacement: string, pieces: seq<Piece>,
                                        show: Between -> string, shown: Between -> string)
    requires SkipsPlain(m)
    requires forall i :: 0 <= i < |pieces| ==>
      IsWord(pieces[i].word) && Turns(m, replacement, show(pieces[i].before), shown(pieces[i].before))
    ensures Sub(Shown(pieces, show), m, replacement) == Shown(pieces, shown)
  {
    hide Turns, SkipsPlain, Sub, IsPlain;
    if pieces == [] {
      SubOfNothing(m, replacement);
    } else {
      var piece, rest := pieces[0], pieces[1..];
      PassOnPieces(m, replacement, rest, show, shown);
      TurnsAt(m, replacement, show(piece.before), shown(piece.before), piece.word, Shown(rest, show));
      WordStays(m, replacement, piece.word, Shown(rest, show));
    }
  }

  lemma SubOfNothing(m: Matcher, replacement: string)
    ensures Sub("", m, replacement) == ""
  {
  }

  lemma TurnsAt(m: Matcher, replacement: string, before: string, after: string, word: string, rest: string)
    requires Turns(m, replacement, before, after) && IsWord(word)
    ensures Sub(before + (word + rest), m, replacement) == after + Sub(word + rest, m, replacement)
  {
    hide Sub;
    assert StartsPlain(word + rest);
  }

  // A text no match starts in, whatever follows, stays.
  lemma {:induction false} Untouched(m: Matcher, replacement: string, before: string, rest: string)
    requires forall i :: 0 <= i < |before| ==> !MatchesAt(before[i..] + rest, m)
    ensures Sub(before + rest, m, replacement) == before + Sub(rest, m, replacement)
  {
    var all := before + rest;
    if before == "" {
      assert all == rest;
    } else {
      var tail := before[1..];
      assert before[0..] == before;
      assert forall i :: 0 <= i < |tail| ==> tail[i..] == before[i + 1..];
      Untouched(m, replacement, tail, rest);
      assert all[1..] == tail + rest;
      assert before == [before[0]] + tail;
    }
  }

  // A text matched as a whole is replaced.
  lemma Replaced(m: Matcher, replacement: string, before: string, rest: string)
    requires before != "" && m(before + rest) == |before|
    ensures Sub(before + rest, m, replacement) == replacement + Sub(rest, m, replacement)
  {
    assert (before + rest)[|before|..] == rest;
  }

  // ----- line-break tags

  lemma BreakSkipsPlain()
    ensures SkipsPlain(BreakLength) && SkipsPlain(TagLength)
  {
  }

  lemma BreakTagMatched(tag: string, rest: string)
    requires IsBreakTag(tag)
    ensures tag != "" && BreakLength(tag + rest) == |tag|
  {
    hide IsSpaceSlash, SkipSlash, IsSpace;
    var k: nat :| IsBreakNamedAt(tag, k);
    var s, h := tag + rest, |tag| - 1;
    assert s[1..k] == tag[1..k] && s[k + 2..h] == tag[k + 2..h];
    NameIsPlain(s[k]);
    SkipSlashIsOnly(s, 1, k);
    AngleIsPlain();
    SkipSlashIsOnly(s, k + 2, h);
    assert s[k + 2] == tag[k + 2];
  }

  lemma AngleIsPlain()
    ensures !IsSpace('>') && !IsSpace('<')
  {
  }

  lemma NoAngleNoMatch(before: string, rest: string)
    requires '<' !in before
    ensures Sub(before + rest, BreakLength, "\n") == before + Sub(rest, BreakLength, "\n")
    ensures Sub(before + rest, TagLength, "") == before + Sub(rest, TagLength, "")
  {
    forall i | 0 <= i < |before|
      ensures !MatchesAt(before[i..] + rest, BreakLength) && !MatchesAt(before[i..] + rest, TagLength)
    {
      assert (before[i..] + rest)[0] == before[i];
    }
    Untouched(BreakLength, "\n", before, rest);
    Untouched(TagLength, "", before, rest);
  }

  // A break name cannot lie beyond the end of the tag.
  lemma MarkupIsNoBreak(tag: string, rest: string, k: nat)
    requires IsTag(tag) && BreakAt(tag + rest, k)
    ensures BreakAt(tag, k)
  {
    var s, e := tag + rest, |tag| - 1;
    assert s[e] == '>';
    if k > e {
      SpaceSlashOnly(s[1..k], e - 1);
      assert s[1..k][e - 1] == s[e];
    }
    NameIsNoAngle(s[k], s[k + 1]);
    assert k + 2 <= |tag|;
    assert s[1..k] == tag[1..k];
  }

  lemma SpaceSlashOnly(t: string, i: nat)
    requires IsSpaceSlash(t) && i < |t|
    ensures IsSpace(t[i]) || t[i] == '/'
  {
  }

  lemma NameIsNoAngle(a: char, b: char)
    ensures IsBreakName(a, b) ==> a != '>' && b != '>'
    ensures !IsSpace('>')
  {
  }

  lemma MarkupStays(tag: string, rest: string)
    requires Markup(tag).Valid()
    ensures Sub(tag + rest, BreakLength, "\n") == tag + Sub(rest, BreakLength, "\n")
  {
    hide Sub, BreakLength;
    var s := tag + rest;
    MarkupNotMatched(tag, rest);
    NoAngleNoMatch(tag[1..], rest);
    OneStays(BreakLength, "\n", s);
    assert s[1..] == tag[1..] + rest;
    OneMore(tag, Sub(rest, BreakLength, "\n"));
  }

  lemma MarkupNotMatched(tag: string, rest: string)
    requires Markup(tag).Valid()
    ensures !MatchesAt(tag + rest, BreakLength)
  {
    hide BreakAt, BreakLength, BreakMatches, IsTag;
    BreakMatcherExact(tag + rest);
    forall k: nat
      ensures !BreakAt(tag + rest, k)
    {
      if BreakAt(tag + rest, k) {
        MarkupIsNoBreak(tag, rest, k);
      }
    }
  }

  lemma MarkupGoes(tag: string, rest: string)
    requires IsTag(tag)
    ensures Sub(tag + rest, TagLength, "") == Sub(rest, TagLength, "")
  {
    var s := tag + rest;
    TagMatcherExact(s);
    assert s[..|tag|] == tag;
    Replaced(TagLength, "", tag, rest);
  }

  // ----- white between words

  lemma PlainIsNotWhite(c: char)
    requires IsPlain(c)
    ensures !IsBlankOrNewline(c)
  {
  }

  // Blanks up to position n, and then something else.
  lemma BlankRun(s: string, p: char -> bool, n: nat)
    requires n < |s| && !p(s[n]) && forall i :: 0 <= i < n ==> p(s[i])
    ensures Run(s, p) == n
  {
    assert s[0..] == s;
    RunUpTo(s, p, 0, n);
  }

  lemma GapWithLine(white: string, rest: string)
    requires Gap(white).Valid() && '\n' in white && StartsPlain(rest)
    ensures LineLength(white + rest) == |white|
  {
    hide Run;
    var s := white + rest;
    var a :| 0 <= a < |white| && white[a] == '\n' && '\n' !in white[..a] by {
      FirstLine(white);
    }
    assert forall i :: 0 <= i < a ==> s[i] == white[..a][i];
    BlankRun(s, IsBlank, a);
    var tail := s[a + 1..];
    var n := |white| - a - 1;
    assert forall i :: 0 <= i < n ==> tail[i] == white[a + 1 + i];
    PlainIsNotWhite(rest[0]);
    assert tail[n] == rest[0];
    BlankRun(tail, IsBlankOrNewline, n);
  }

  lemma {:induction false} FirstLine(white: string)
    requires '\n' in white
    ensures exists a :: 0 <= a < |white| && white[a] == '\n' && '\n' !in white[..a]
  {
    var init := white[..|white| - 1];
    if '\n' in init {
      FirstLine(init);
      var a :| 0 <= a < |init| && init[a] == '\n' && '\n' !in init[..a];
      assert init[..a] == white[..a] && white[a] == '\n';
    } else {
      assert white == init + [white[|white| - 1]];
      assert white[..|white| - 1] == init;
    }
  }

  lemma GapWithoutLine(white: string, rest: string)
    requires Gap(white).Valid() && '\n' !in white && StartsPlain(rest)
    ensures Sub(white + rest, LineLength, "\n") == white + Sub(rest, LineLength, "\n")
  {
    hide Run, Sub;
    PlainIsNotWhite(rest[0]);
    forall i | 0 <= i < |white|
      ensures !MatchesAt(white[i..] + rest, LineLength)
    {
      var s := white[i..] + rest;
      assert forall j :: 0 <= j < |white| - i ==> s[j] == white[i + j];
      BlankRun(s, IsBlank, |white| - i);
    }
    Untouched(LineLength, "\n", white, rest);
  }

  lemma GapOfBlanks(white: string, rest: string)
    requires Gap(white).Valid() && '\n' !in white && StartsPlain(rest)
    ensures Sub(white + rest, BlanksLength, " ") ==
            (if |white| >= 2 then " " else white) + Sub(rest, BlanksLength, " ")
  {
    hide Run, Sub;
    var s := white + rest;
    PlainIsNotWhite(rest[0]);
    assert forall j :: 0 <= j < |white| ==> s[j] == white[j];
    BlankRun(s, IsBlank, |white|);
    if |white| >= 2 {
      Replaced(BlanksLength, " ", white, rest);
    } else {
      assert |white| == 1 ==> white[0..] == white;
      Untouched(BlanksLength, " ", white, rest);
    }
  }

  lemma WhiteSkipsPlain()
    ensures SkipsPlain(LineLength) && SkipsPlain(BlanksLength)
  {
    forall s: string | StartsPlain(s)
      ensures !MatchesAt(s, LineLength) && !MatchesAt(s, BlanksLength)
    {
      PlainIsNotWhite(s[0]);
    }
  }

  // ----- the four passes

  function Raw(b: Between): string {
    b.Text()
  }

  function WithoutBreaks(b: Between): string {
    if b.LineBreak? then "\n" else b.Text()
  }

  function WithoutTags(b: Between): string {
    if b.Markup? then "" else WithoutBreaks(b)
  }

  function WithLines(b: Between): string {
    if b.Gap? && '\n' in b.white then "\n" else WithoutTags(b)
  }

  function AllCleaned(b: Between): string {
    b.Cleaned()
  }

  lemma BreakPassTurns(b: Between)
    requires b.Valid()
    ensures Turns(BreakLength, "\n", Raw(b), WithoutBreaks(b))
  {
    hide Sub, BreakLength, IsTag, BreakAt, IsBreakTag;
    forall rest: string | StartsPlain(rest)
      ensures Sub(Raw(b) + rest, BreakLength, "\n") == WithoutBreaks(b) + Sub(rest, BreakLength, "\n")
    {
      match b
      case Nothing => assert "" + rest == rest;
      case LineBreak(tag) =>
        BreakTagMatched(tag, rest);
        Replaced(BreakLength, "\n", tag, rest);
      case Markup(tag) => MarkupStays(tag, rest);
      case Gap(white) => NoAngleNoMatch(white, rest);
    }
  }

  lemma TagPassTurns(b: Between)
    requires b.Valid()
    ensures Turns(TagLength, "", WithoutBreaks(b), WithoutTags(b))
  {
    hide Sub, TagLength, IsTag, BreakAt, IsBreakTag;
    forall rest: string | StartsPlain(rest)
      ensures Sub(WithoutBreaks(b) + rest, TagLength, "") == WithoutTags(b) + Sub(rest, TagLength, "")
    {
      match b
      case Nothing => assert "" + rest == rest;
      case LineBreak(tag) => NoAngleNoMatch("\n", rest);
      case Markup(tag) => MarkupGoes(tag, rest);
      case Gap(white) => NoAngleNoMatch(white, rest);
    }
  }

  lemma LinePassTurns(b: Between)
    requires b.Valid()
    ensures Turns(LineLength, "\n", WithoutTags(b), WithLines(b))
  {
    hide Sub, LineLength, IsTag, BreakAt, IsBreakTag;
    forall rest: string | StartsPlain(rest)
      ensures Sub(WithoutTags(b) + rest, LineLength, "\n") == WithLines(b) + Sub(rest, LineLength, "\n")
    {
      match b
      case Nothing => assert "" + rest == rest;
      case LineBreak(tag) => LineReplaced("\n", rest);
      case Markup(tag) => assert "" + rest == rest;
      case Gap(white) =>
        if '\n' in white {
          LineReplaced(white, rest);
        } else {
          GapWithoutLine(white, rest);
        }
    }
  }

  lemma LineReplaced(white: string, rest: string)
    requires Gap(white).Valid() && '\n' in white && StartsPlain(rest)
    ensures Sub(white + rest, LineLength, "\n") == "\n" + Sub(rest, LineLength, "\n")
  {
    GapWithLine(white, rest);
    Replaced(LineLength, "\n", white, rest);
  }

  lemma BlanksPassTurns(b: Between)
    requires b.Valid()
    ensures Turns(BlanksLength, " ", WithLines(b), AllCleaned(b))
  {
    forall rest: string | StartsPlain(rest)
      ensures Sub(WithLines(b) + rest, BlanksLength, " ") == AllCleaned(b) + Sub(rest, BlanksLength, " ")
    {
      if WithLines(b) == "\n" {
        LineStays(rest);
      } else if b.Gap? {
        GapOfBlanks(b.white, rest);
      } else {
        assert "" + rest == rest;
      }
    }
  }

  lemma LineStays(rest: string)
    ensures Sub("\n" + rest, BlanksLength, " ") == "\n" + Sub(rest, BlanksLength, " ")
  {
    assert "\n"[0..] == "\n";
    assert ("\n" + rest)[0] == '\n';
    Untouched(BlanksLength, " ", "\n", rest);
  }

  // ----- the whole cleaner

  lemma {:induction false} ShownEnds(pieces: seq<Piece>, show: Between -> string)
    requires forall i :: 0 <= i < |pieces| ==> IsWord(pieces[i].word)
    requires pieces != []
    ensures
      var text := Shown(pieces, show);
      text != "" && IsPlain(text[|text| - 1])
      && (show(pieces[0].before) == "" ==> IsPlain(text[0]))
  {
    var text, rest := Shown(pieces, show), pieces[1..];
    var tail := pieces[0].word + Shown(rest, show);
    assert tail[0] == pieces[0].word[0];
    if rest == [] {
      assert tail == pieces[0].word;
    } else {
      ShownEnds(rest, show);
      assert tail[|tail| - 1] == Shown(rest, show)[|Shown(rest, show)| - 1];
    }
    assert text[|text| - 1] == tail[|tail| - 1];
  }

  lemma ShownIsStripped(pieces: seq<Piece>, show: Between -> string)
    requires ValidPieces(pieces) && show(Nothing) == ""
    ensures Shown(pieces, show) != "" && Strip(Shown(pieces, show)) == Shown(pieces, show)
  {
    ShownEnds(pieces, show);
    StripTidy(Shown(pieces, show));
  }

  lemma PassesOnPieces(pieces: seq<Piece>)
    requires ValidPieces(pieces)
    ensures CollapseWhite(RemoveTags(Shown(pieces, Raw))) == Shown(pieces, AllCleaned)
  {
    hide Sub, Shown, Turns, SkipsPlain, BreakLength, TagLength, LineLength, BlanksLength, IsWord;
    forall i | 0 <= i < |pieces|
      ensures Turns(BreakLength, "\n", Raw(pieces[i].before), WithoutBreaks(pieces[i].before))
      ensures Turns(TagLength, "", WithoutBreaks(pieces[i].before), WithoutTags(pieces[i].before))
      ensures Turns(LineLength, "\n", WithoutTags(pieces[i].before), WithLines(pieces[i].before))
      ensures Turns(BlanksLength, " ", WithLines(pieces[i].before), AllCleaned(pieces[i].before))
    {
      BreakPassTurns(pieces[i].before);
      TagPassTurns(pieces[i].before);
      LinePassTurns(pieces[i].before);
      BlanksPassTurns(pieces[i].before);
    }
    BreakSkipsPlain();
    WhiteSkipsPlain();
    PassOnPieces(BreakLength, "\n", pieces, Raw, WithoutBreaks);
    PassOnPieces(TagLength, "", pieces, WithoutBreaks, WithoutTags);
    PassOnPieces(LineLength, "\n", pieces, WithoutTags, WithLines);
    PassOnPieces(BlanksLength, " ", pieces, WithLines, AllCleaned);
  }

  /** Cleaning a text of words gives the same words, with what stands between them cleaned. */
  lemma CleanKeepsWords(pieces: seq<Piece>)
    requires ValidPieces(pieces)
    ensures Clean(Some(Shown(pieces, Raw))) == Some(Shown(pieces, AllCleaned))
  {
    hide Sub, Shown, Strip, CollapseWhite, RemoveTags;
    ShownIsStripped(pieces, Raw);
    ShownIsStripped(pieces, AllCleaned);
    PassesOnPieces(pieces);
  }
}
