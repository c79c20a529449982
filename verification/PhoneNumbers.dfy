/** Extraction of the first telephone number from a free text.

A match of the pattern is described by its shape: area, middle and last group with the separators
between them, area and last group, or one bare run of digits. `PhoneAt` computes the shape of the match at
the start of a text; `PhoneAtComplete` shows it misses none.
 */
module PhoneNumbers {
  import opened Common
  import opened Patterns

  // ----- characters

  // First code points of the decimal-digit blocks (Unicode category Nd) beyond ASCII.
  const DIGIT_BLOCKS: seq<int> := [
    0x660, 0x6F0, 0x7C0, 0x966, 0x9E6, 0xA66, 0xAE6, 0xB66, 0xBE6, 0xC66, 0xCE6, 0xD66, 0xDE6, 0xE50, 0xED0,
    0xF20, 0x1040, 0x1090, 0x17E0, 0x1810, 0x1946, 0x19D0, 0x1A80, 0x1A90, 0x1B50, 0x1BB0, 0x1C40, 0x1C50,
    0xA620, 0xA8D0, 0xA900, 0xA9D0, 0xA9F0, 0xAA50, 0xABF0, 0xFF10, 0x104A0, 0x10D30, 0x11066, 0x110F0,
    0x11136, 0x111D0, 0x112F0, 0x11450, 0x114D0, 0x11650, 0x116C0, 0x11730, 0x118E0, 0x11950, 0x11C50,
    0x11D50, 0x11DA0, 0x11F50, 0x16A60, 0x16AC0, 0x16B50, 0x1D7CE, 0x1D7D8, 0x1D7E2, 0x1D7EC, 0x1D7F6,
    0x1E140, 0x1E2F0, 0x1E4F0, 0x1E950, 0x1FBF0]

  // \d in a str pattern: any decimal digit, not only ASCII.
  predicate IsDigit(c: char) {
    '0' <= c <= '9' || (c >= '\U{660}' && !IsSpace(c) && InDigitBlock(c as int, |DIGIT_BLOCKS|))
  }

  predicate InDigitBlock(code: int, blocks: nat)
    requires blocks <= |DIGIT_BLOCKS|
  {
    blocks > 0 && (DIGIT_BLOCKS[blocks - 1] <= code < DIGIT_BLOCKS[blocks - 1] + 10 || InDigitBlock(code, blocks - 1))
  }

  predicate IsSpaceChar(c: char) {
    c == ' '
  }

  predicate AllDigits(s: string) {
    forall i :: 0 <= i < |s| ==> IsDigit(s[i])
  }

  function Without(s: string, c: char): string {
    if s == "" then "" else (if s[0] == c then [] else [s[0]]) + Without(s[1..], c)
  }

  // ----- the pattern

  // " *- *"
  predicate IsSeparator(s: string) {
    exists i :: 0 <= i < |s| && s[i] == '-' && forall j :: 0 <= j < |s| && j != i ==> s[j] == ' '
  }

  datatype Shape =
    | Three(area: string, sep1: string, middle: string, sep2: string, last: string)
    | Two(head: string, sep: string, last: string)
    | Bare(digits: string)
  {
    function Text(): string {
      match this
      case Three(a, s1, m, s2, l) => a + (s1 + (m + (s2 + l)))
      case Two(h, s, l) => h + (s + l)
      case Bare(d) => d
    }

    function Digits(): string {
      match this
      case Three(a, s1, m, s2, l) => a + (m + l)
      case Two(h, s, l) => h + l
      case Bare(d) => d
    }

    predicate Valid() {
      match this
      case Three(a, s1, m, s2, l) =>
        && 2 <= |a| <= 4 && 3 <= |m| <= 4 && |l| == 4
        && AllDigits(a) && AllDigits(m) && AllDigits(l) && IsSeparator(s1) && IsSeparator(s2)
      case Two(h, s, l) => |h| == 4 && |l| == 4 && AllDigits(h) && AllDigits(l) && IsSeparator(s)
      case Bare(d) => 9 <= |d| <= 12 && AllDigits(d) && d[0] == '0'
    }
  }

  // A text cut in two: what a piece of the pattern takes, and the rest.
  datatype Taken = Taken(text: string, rest: string)

  function TakeDigits(s: string): (t: Taken)
    ensures s == t.text + t.rest && AllDigits(t.text)
    ensures t.rest != "" ==> !IsDigit(t.rest[0])
  {
    var d := Run(s, IsDigit);
    Taken(s[..d], s[d..])
  }

  function TakeSeparator(s: string): Option<Taken> {
    var a := Run(s, IsSpaceChar);
    if a < |s| && s[a] == '-' then
      var n := a + 1 + Run(s[a + 1..], IsSpaceChar);
      Some(Taken(s[..n], s[n..]))
    else None
  }

  // \d{2,4} *- *\d{3,4} *- *\d{4}
  function ThreeAt(s: string): Option<Shape> {
    var a := TakeDigits(s);
    match TakeSeparator(a.rest)
    case None => None
    case Some(s1) =>
      var m := TakeDigits(s1.rest);
      match TakeSeparator(m.rest)
      case None => None
      case Some(s2) =>
        var l := TakeDigits(s2.rest).text;
        if 2 <= |a.text| <= 4 && 3 <= |m.text| <= 4 && |l| >= 4 then
          Some(Three(a.text, s1.text, m.text, s2.text, l[..4]))
        else None
  }

  // \d{4} *- *\d{4}
  function TwoAt(s: string): Option<Shape> {
    var h := TakeDigits(s);
    match TakeSeparator(h.rest)
    case None => None
    case Some(s1) =>
      var l := TakeDigits(s1.rest).text;
      if |h.text| == 4 && |l| >= 4 then Some(Two(h.text, s1.text, l[..4])) else None
  }

  // 0\d{8,11}
  function BareAt(s: string): Option<Shape> {
    var d := TakeDigits(s).text;
    if |d| >= 9 && d[0] == '0' then Some(Bare(if |d| > 12 then d[..12] else d)) else None
  }

  // The three alternatives in order.
  function PhoneAt(s: string): Option<Shape> {
    if ThreeAt(s).Some? then ThreeAt(s) else if TwoAt(s).Some? then TwoAt(s) else BareAt(s)
  }

  // (?<!\d)
  predicate MayStart(s: string, i: nat)
    requires i <= |s|
  {
    i == 0 || !IsDigit(s[i - 1])
  }

  function PhoneFrom(s: string, i: nat): Option<Shape>
    requires i <= |s|
  {
    if MayStart(s, i) then PhoneAt(s[i..]) else None
  }

  // What the pattern matches at each position.
  function Matches(s: string): seq<Option<Shape>> {
    seq(|s| + 1, i requires 0 <= i < |s| + 1 => PhoneFrom(s, i))
  }

  function FirstSome<T>(options: seq<Option<T>>): (r: Option<nat>)
    ensures r.Some? ==> r.value < |options| && options[r.value].Some?
  {
    if options == [] then None
    else if options[0].Some? then Some(0)
    else
      var rest := FirstSome(options[1..]);
      if rest.Some? then Some(rest.value + 1) else None
  }

  lemma {:induction false} FirstSomeIsFirst<T>(options: seq<Option<T>>, j: nat)
    requires j < |options| && options[j].Some?
    ensures FirstSome(options).Some? && FirstSome(options).value <= j
  {
    if options[0].None? {
      FirstSomeIsFirst(options[1..], j - 1);
    }
  }

  // The leftmost match.
  function Search(s: string): Option<nat> {
    FirstSome(Matches(s))
  }

  // ----- the cleaner

  // Four-digit area prefixes: 0303 and 0502 to 0508.
  predicate HasArea4(digits: string) {
    |digits| >= 4 && digits[0] == '0' && digits[2] == '0' &&
    ((digits[1] == '3' && digits[3] == '3') || (digits[1] == '5' && '2' <= digits[3] <= '8'))
  }

  function AreaLength(digits: string): (n: nat)
    ensures 2 <= n <= 4
  {
    if |digits| >= 2 && digits[0] == '0' && digits[1] == '2' then 2
    else if HasArea4(digits) then 4
    else 3
  }

  // Area, middle and the last four digits, joined by hyphens.
  function Cut(digits: string, area: nat): Shape
    requires |digits| > area + 4
  {
    Three(digits[..area], "-", digits[area..|digits| - 4], "-", digits[|digits| - 4..])
  }

  function HyphenateBare(digits: string): string {
    var area := AreaLength(digits);
    if |digits| <= area + 4 then digits else Cut(digits, area).Text()
  }

  function Leftmost(text: string): Option<Shape> {
    match Search(text)
    case None => None
    case Some(i) => Matches(text)[i]
  }

  function FirstPhone(value: Option<string>): Option<Shape> {
    if value.None? || Strip(value.value) == "" then None else Leftmost(Strip(value.value))
  }

  function CleanTel(value: Option<string>): Option<string> {
    TokenOf(FirstPhone(value))
  }

  function TokenOf(found: Option<Shape>): Option<string> {
    if found.Some? then Some(Token(found.value)) else None
  }

  function Token(shape: Shape): string {
    var token := Without(shape.Text(), ' ');
    if '-' in token then token else HyphenateBare(token)
  }

  // ----- the pattern is matched completely

  lemma {:induction false} RunOfPrefix(a: string, rest: string, p: char -> bool)
    requires forall i :: 0 <= i < |a| ==> p(a[i])
    requires rest != "" ==> !p(rest[0])
    ensures Run(a + rest, p) == |a|
  {
    if a == "" {
      assert a + rest == rest;
    } else {
      RunOfPrefix(a[1..], rest, p);
      assert (a + rest)[1..] == a[1..] + rest;
    }
  }

  lemma TakeSeparatorSound(s: string)
    requires TakeSeparator(s).Some?
    ensures var t := TakeSeparator(s).value; s == t.text + t.rest && IsSeparator(t.text)
  {
    hide IsSeparator, Run;
    var a := Run(s, IsSpaceChar);
    SeparatorAround(s, a, s[a + 1..], Run(s[a + 1..], IsSpaceChar));
  }

  // Blanks, a hyphen at a and b more blanks.
  lemma SeparatorAround(s: string, a: nat, rest: string, b: nat)
    requires a + 1 + b <= |s| && s[a] == '-' && rest == s[a + 1..]
    requires forall j :: 0 <= j < a ==> s[j] == ' '
    requires forall j :: 0 <= j < b ==> rest[j] == ' '
    ensures IsSeparator(s[..a + 1 + b])
  {
    var sep := s[..a + 1 + b];
    assert sep[a] == '-';
    forall j | 0 <= j < |sep| && j != a
      ensures sep[j] == ' '
    {
      if j > a {
        assert rest[j - a - 1] == s[j];
      }
    }
  }

  lemma PrefixStep(piece: string, part: string, rest: string)
    requires part <= rest
    ensures piece + part <= piece + rest
  {
    assert rest == part + rest[|part|..];
    assert piece + rest == piece + part + rest[|part|..];
  }

  lemma ThreeAtSound(s: string)
    requires ThreeAt(s).Some?
    ensures ThreeAt(s).value.Valid() && ThreeAt(s).value.Text() <= s
  {
    hide TakeDigits, TakeSeparator, IsSeparator, AllDigits;
    var Three(a, s1, m, s2, l) := ThreeAt(s).value;
    var r1 := TakeDigits(s).rest;
    var r2 := TakeSeparator(r1).value.rest;
    var r3 := TakeDigits(r2).rest;
    var r4 := TakeSeparator(r3).value.rest;
    TakeSeparatorSound(r1);
    TakeSeparatorSound(r3);
    FourOfDigits(TakeDigits(r4).text, r4);
    ThreePrefixes(a, s1, m, s2, l, r4);
    assert s == a + (s1 + (m + (s2 + r4)));
  }

  lemma ThreePrefixes(a: string, s1: string, m: string, s2: string, l: string, rest: string)
    requires l <= rest
    ensures Three(a, s1, m, s2, l).Text() <= a + (s1 + (m + (s2 + rest)))
  {
    PrefixStep(s2, l, rest);
    PrefixStep(m, s2 + l, s2 + rest);
    PrefixStep(s1, m + (s2 + l), m + (s2 + rest));
    PrefixStep(a, s1 + (m + (s2 + l)), s1 + (m + (s2 + rest)));
  }

  lemma FourOfDigits(digits: string, s: string)
    requires digits <= s && AllDigits(digits) && |digits| >= 4
    ensures digits[..4] <= s && AllDigits(digits[..4])
  {
  }

  lemma TwoAtSound(s: string)
    requires TwoAt(s).Some?
    ensures TwoAt(s).value.Valid() && TwoAt(s).value.Text() <= s
  {
    hide TakeDigits, TakeSeparator, IsSeparator, AllDigits;
    var Two(h, s1, l) := TwoAt(s).value;
    var r1 := TakeDigits(s).rest;
    var r2 := TakeSeparator(r1).value.rest;
    TakeSeparatorSound(r1);
    FourOfDigits(TakeDigits(r2).text, r2);
    PrefixStep(s1, l, r2);
    PrefixStep(h, s1 + l, r1);
  }

  // A computed match is a match.
  lemma PhoneAtSound(s: string)
    requires PhoneAt(s).Some?
    ensures PhoneAt(s).value.Valid() && PhoneAt(s).value.Text() <= s
  {
    if ThreeAt(s).Some? {
      ThreeAtSound(s);
    } else if TwoAt(s).Some? {
      TwoAtSound(s);
    }
  }

  lemma TakeDigitsIs(digits: string, rest: string)
    requires AllDigits(digits) && (rest != "" ==> !IsDigit(rest[0]))
    ensures TakeDigits(digits + rest) == Taken(digits, rest)
  {
    RunOfPrefix(digits, rest, IsDigit);
  }

  lemma TakeSeparatorIs(sep: string, rest: string)
    requires IsSeparator(sep) && (rest != "" ==> rest[0] != ' ')
    ensures TakeSeparator(sep + rest) == Some(Taken(sep, rest))
  {
    hide TakeSeparator;
    var i :| 0 <= i < |sep| && sep[i] == '-' && forall j :: 0 <= j < |sep| && j != i ==> sep[j] == ' ';
    CutAtHyphen(sep, i, rest);
    BlanksAroundHyphen(sep[..i], sep[i + 1..], rest);
  }

  lemma CutAtHyphen(sep: string, i: nat, rest: string)
    requires i < |sep| && sep[i] == '-'
    ensures sep[..i] + "-" + sep[i + 1..] == sep
    ensures sep + rest == sep[..i] + ("-" + (sep[i + 1..] + rest))
  {
  }

  lemma BlanksAroundHyphen(left: string, right: string, rest: string)
    requires forall i :: 0 <= i < |left| ==> left[i] == ' '
    requires forall i :: 0 <= i < |right| ==> right[i] == ' '
    requires rest != "" ==> rest[0] != ' '
    ensures TakeSeparator(left + ("-" + (right + rest))) == Some(Taken(left + "-" + right, rest))
  {
    var s := left + ("-" + (right + rest));
    RunOfPrefix(left, "-" + (right + rest), IsSpaceChar);
    assert s[|left|] == '-';
    assert s[|left| + 1..] == right + rest;
    RunOfPrefix(right, rest, IsSpaceChar);
    var n := |left| + 1 + |right|;
    assert s[..n] == left + "-" + right && s[n..] == rest;
  }

  lemma SeparatorStartsWithoutDigit(sep: string, rest: string)
    requires IsSeparator(sep)
    ensures sep + rest != "" && !IsDigit((sep + rest)[0])
  {
  }

  // A shape followed by any text is found, by its own alternative or an earlier one.
  lemma PhoneAtComplete(shape: Shape, rest: string)
    requires shape.Valid()
    ensures PhoneAt(shape.Text() + rest).Some?
  {
    var s := shape.Text() + rest;
    match shape
    case Three(a, s1, m, s2, l) =>
      ThreeAtComplete(a, s1, m, s2, l, rest);
    case Two(h, s1, l) =>
      TwoAtComplete(h, s1, l, rest);
    case Bare(d) =>
      RunAtLeast(d, rest);
      assert s[0] == d[0];
  }

  lemma ThreeAtComplete(a: string, s1: string, m: string, s2: string, l: string, rest: string)
    requires Three(a, s1, m, s2, l).Valid()
    ensures ThreeAt(Three(a, s1, m, s2, l).Text() + rest) == Some(Three(a, s1, m, s2, l))
  {
    var r4 := l + rest;
    var r3, r2 := s2 + r4, m + (s2 + r4);
    var r1 := s1 + r2;
    assert Three(a, s1, m, s2, l).Text() + rest == a + r1;
    SeparatorStartsWithoutDigit(s1, r2);
    TakeDigitsIs(a, r1);
    TakeSeparatorIs(s1, r2);
    SeparatorStartsWithoutDigit(s2, r4);
    TakeDigitsIs(m, r3);
    TakeSeparatorIs(s2, r4);
    FirstFour(l, rest);
  }

  lemma TwoAtComplete(h: string, s1: string, l: string, rest: string)
    requires Two(h, s1, l).Valid()
    ensures TwoAt(Two(h, s1, l).Text() + rest) == Some(Two(h, s1, l))
  {
    var r2 := l + rest;
    var r1 := s1 + r2;
    assert Two(h, s1, l).Text() + rest == h + r1;
    SeparatorStartsWithoutDigit(s1, r2);
    TakeDigitsIs(h, r1);
    TakeSeparatorIs(s1, r2);
    FirstFour(l, rest);
  }

  lemma FirstFour(l: string, rest: string)
    requires AllDigits(l) && |l| == 4
    ensures var d := TakeDigits(l + rest).text; |d| >= 4 && d[..4] == l
  {
    RunAtLeast(l, rest);
    var d := Run(l + rest, IsDigit);
    assert (l + rest)[..d][..4] == l;
  }

  lemma {:induction false} RunAtLeast(a: string, rest: string)
    requires AllDigits(a)
    ensures Run(a + rest, IsDigit) >= |a|
  {
    if a == "" {
    } else {
      RunAtLeast(a[1..], rest);
      assert (a + rest)[1..] == a[1..] + rest;
    }
  }

  // ----- the choice among several shapes

  // No phone of three groups starts the text.
  ghost predicate NoThree(s: string) {
    forall t: Shape :: t.Three? && t.Valid() ==> !(t.Text() <= s)
  }

  lemma NoThreeAt(s: string)
    requires NoThree(s)
    ensures ThreeAt(s).None?
  {
    if ThreeAt(s).Some? {
      ThreeAtSound(s);
    }
  }

  // Three groups go before two, and either before a bare number, of which the longest is taken.
  lemma PhoneAtPrefers(shape: Shape, s: string)
    requires shape.Valid() && shape.Text() <= s
    ensures shape.Three? ==> PhoneAt(s) == Some(shape)
    ensures shape.Two? && NoThree(s) ==> PhoneAt(s) == Some(shape)
    ensures shape.Bare? && PhoneAt(s).Some? && PhoneAt(s).value.Bare? ==> |shape.digits| <= |PhoneAt(s).value.digits|
  {
    hide ThreeAt, TwoAt, BareAt, PhoneAt, IsSeparator, AllDigits, NoThree;
    var rest := s[|shape.Text()|..];
    assert s == shape.Text() + rest;
    match shape
    case Three(a, s1, m, s2, l) =>
      ThreeAtComplete(a, s1, m, s2, l, rest);
      ThreeGoFirst(s);
    case Two(h, s1, l) =>
      TwoAtComplete(h, s1, l, rest);
      if NoThree(s) {
        NoThreeAt(s);
        TwoGoNext(s);
      }
    case Bare(d) => BareIsLongest(d, rest);
  }

  lemma ThreeGoFirst(s: string)
    ensures ThreeAt(s).Some? ==> PhoneAt(s) == ThreeAt(s)
  {
    hide ThreeAt;
  }

  lemma TwoGoNext(s: string)
    ensures ThreeAt(s).None? && TwoAt(s).Some? ==> PhoneAt(s) == TwoAt(s)
  {
    hide ThreeAt, TwoAt;
  }

  lemma BareIsLongest(d: string, rest: string)
    requires Bare(d).Valid()
    ensures PhoneAt(d + rest).Some? && PhoneAt(d + rest).value.Bare? ==> |d| <= |PhoneAt(d + rest).value.digits|
  {
    hide ThreeAt, TwoAt, PhoneAt, AllDigits, Run;
    RunAtLeast(d, rest);
    if PhoneAt(d + rest).Some? && PhoneAt(d + rest).value.Bare? {
      BareOnlyLast(d + rest);
    }
  }

  lemma BareOnlyLast(s: string)
    requires PhoneAt(s).Some? && PhoneAt(s).value.Bare?
    ensures PhoneAt(s) == BareAt(s)
  {
  }

  // ----- the leftmost match

  // The shape stands in the text at position i, where the pattern may start.
  ghost predicate StandsAt(shape: Shape, text: string, i: nat) {
    i <= |text| && MayStart(text, i) && shape.Valid() && shape.Text() <= text[i..]
  }

  lemma PhoneFromSound(text: string, i: nat)
    requires i <= |text| && PhoneFrom(text, i).Some?
    ensures StandsAt(PhoneFrom(text, i).value, text, i)
  {
    PhoneAtSound(text[i..]);
  }

  lemma PhoneFromComplete(text: string, i: nat, shape: Shape)
    requires StandsAt(shape, text, i)
    ensures PhoneFrom(text, i).Some?
  {
    var t, n := text[i..], |shape.Text()|;
    assert t == shape.Text() + t[n..];
    PhoneAtComplete(shape, t[n..]);
  }

  lemma LeftmostStands(text: string)
    requires Leftmost(text).Some?
    ensures Search(text).Some? && StandsAt(Leftmost(text).value, text, Search(text).value)
  {
    PhoneFromSound(text, Search(text).value);
  }

  lemma LeftmostIsLeftmost(text: string, j: nat, other: Shape)
    requires StandsAt(other, text, j)
    ensures Leftmost(text).Some? && Search(text).Some? && Search(text).value <= j
  {
    PhoneFromComplete(text, j, other);
    FirstSomeIsFirst(Matches(text), j);
  }

  lemma EmptyTextHasNoPhone(shape: Shape, i: nat)
    requires shape.Valid()
    ensures !StandsAt(shape, "", i)
  {
    assert |shape.Text()| > 0;
  }

  // The number used is a match of the pattern, and no match starts further left.
  lemma FirstPhoneIsLeftmost(value: Option<string>)
    requires FirstPhone(value).Some?
    ensures
      var text := Strip(value.value);
      exists i: nat :: StandsAt(FirstPhone(value).value, text, i) &&
                       forall j: nat, other :: StandsAt(other, text, j) ==> i <= j
  {
    var text := Strip(value.value);
    LeftmostStands(text);
    var i := Search(text).value;
    forall j: nat, other | StandsAt(other, text, j)
      ensures i <= j
    {
      LeftmostIsLeftmost(text, j, other);
    }
  }

  // Nothing is found only where the pattern matches nowhere.
  lemma NoPhoneMeansNoMatch(value: Option<string>, j: nat, other: Shape)
    requires value.Some? && StandsAt(other, Strip(value.value), j)
    ensures FirstPhone(value).Some?
  {
    if Strip(value.value) == "" {
      EmptyTextHasNoPhone(other, j);
    }
    LeftmostIsLeftmost(Strip(value.value), j, other);
  }

  // ----- the digits survive, and a hyphen is always there

  lemma {:induction false} WithoutConcat(a: string, b: string, c: char)
    ensures Without(a + b, c) == Without(a, c) + Without(b, c)
  {
    if a == "" {
      assert a + b == b;
    } else {
      var head := if a[0] == c then [] else [a[0]];
      WithoutConcat(a[1..], b, c);
      assert (a + b)[1..] == a[1..] + b;
      assert head + (Without(a[1..], c) + Without(b, c)) == (head + Without(a[1..], c)) + Without(b, c);
    }
  }

  lemma {:induction false} WithoutAbsent(s: string, c: char)
    requires c !in s
    ensures Without(s, c) == s
  {
    if s != "" {
      assert s == [s[0]] + s[1..];
      WithoutAbsent(s[1..], c);
    }
  }

  lemma DigitsKept(s: string, c: char)
    requires AllDigits(s) && (c == ' ' || c == '-')
    ensures Without(s, c) == s
  {
    WithoutAbsent(s, c);
  }

  lemma {:induction false} OnlySpaces(s: string)
    requires forall i :: 0 <= i < |s| ==> s[i] == ' '
    ensures Without(s, ' ') == ""
  {
    if s != "" {
      OnlySpaces(s[1..]);
    }
  }

  lemma SeparatorToken(sep: string)
    requires IsSeparator(sep)
    ensures Without(sep, ' ') == "-"
  {
    var i :| 0 <= i < |sep| && sep[i] == '-' && forall j :: 0 <= j < |sep| && j != i ==> sep[j] == ' ';
    OnlySpaces(sep[..i]);
    OnlySpaces(sep[i + 1..]);
    assert sep == sep[..i] + (["-"][0] + sep[i + 1..]);
    WithoutConcat(sep[..i], "-" + sep[i + 1..], ' ');
    WithoutConcat("-", sep[i + 1..], ' ');
    WithoutAbsent("-", ' ');
  }

  // The groups of a match joined by plain hyphens; a bare run is cut into area, middle and last four.
  function Plain(shape: Shape): Shape
    requires shape.Valid()
  {
    match shape
    case Three(a, s1, m, s2, l) => Three(a, "-", m, "-", l)
    case Two(h, s, l) => Two(h, "-", l)
    case Bare(d) => Cut(d, AreaLength(d))
  }

  lemma TokenOfThree(a: string, s1: string, m: string, s2: string, l: string)
    requires Three(a, s1, m, s2, l).Valid()
    ensures Without(Three(a, s1, m, s2, l).Text(), ' ') == Three(a, "-", m, "-", l).Text()
  {
    DigitsKept(a, ' ');
    DigitsKept(m, ' ');
    DigitsKept(l, ' ');
    SeparatorToken(s1);
    SeparatorToken(s2);
    WithoutConcat(a, s1 + (m + (s2 + l)), ' ');
    WithoutConcat(s1, m + (s2 + l), ' ');
    WithoutConcat(m, s2 + l, ' ');
    WithoutConcat(s2, l, ' ');
  }

  lemma TokenOfTwo(h: string, s: string, l: string)
    requires Two(h, s, l).Valid()
    ensures Without(Two(h, s, l).Text(), ' ') == Two(h, "-", l).Text()
  {
    DigitsKept(h, ' ');
    DigitsKept(l, ' ');
    SeparatorToken(s);
    WithoutConcat(h, s + l, ' ');
    WithoutConcat(s, l, ' ');
  }

  lemma TokenOfBare(d: string)
    requires Bare(d).Valid()
    ensures Token(Bare(d)) == Plain(Bare(d)).Text()
  {
    DigitsKept(d, ' ');
    NoHyphen(d);
  }

  lemma ThreePieces(d: string, i: nat, j: nat)
    requires i <= j <= |d|
    ensures d == d[..i] + (d[i..j] + d[j..])
  {
  }

  lemma PiecesAreDigits(d: string, i: nat, j: nat)
    requires AllDigits(d) && i <= j <= |d|
    ensures AllDigits(d[..i]) && AllDigits(d[i..j]) && AllDigits(d[j..])
  {
    hide IsDigit;
  }

  lemma CutKeepsDigits(d: string, n: nat)
    requires AllDigits(d) && |d| > n + 4
    ensures Without(Cut(d, n).Text(), '-') == d
  {
    hide Without, AllDigits;
    PiecesAreDigits(d, n, |d| - 4);
    WithoutHyphensThree(d[..n], d[n..|d| - 4], d[|d| - 4..]);
    ThreePieces(d, n, |d| - 4);
  }

  lemma NoHyphen(d: string)
    requires AllDigits(d)
    ensures '-' !in d
  {
  }

  lemma HyphenIn(a: string, b: string)
    ensures '-' in a + ("-" + b)
  {
    assert (a + ("-" + b))[|a|] == '-';
  }

  lemma WithoutHyphen(rest: string)
    ensures Without("-" + rest, '-') == Without(rest, '-')
  {
    assert ("-" + rest)[1..] == rest;
  }

  lemma WithoutHyphensThree(a: string, m: string, l: string)
    requires AllDigits(a) && AllDigits(m) && AllDigits(l)
    ensures Without(Three(a, "-", m, "-", l).Text(), '-') == a + (m + l)
  {
    var rest := m + ("-" + l);
    DigitsKept(a, '-');
    WithoutHyphensTwo(m, l);
    WithoutConcat(a, "-" + rest, '-');
    WithoutHyphen(rest);
  }

  lemma WithoutHyphensTwo(h: string, l: string)
    requires AllDigits(h) && AllDigits(l)
    ensures Without(h + ("-" + l), '-') == h + l
  {
    DigitsKept(h, '-');
    DigitsKept(l, '-');
    WithoutConcat(h, "-" + l, '-');
    WithoutHyphen(l);
  }

  // ----- where a bare number is cut

  const AREA4_PREFIXES: set<string> := {"0303", "0502", "0503", "0504", "0505", "0506", "0507", "0508"}

  // Cut after n digits and before the last four.
  function Grouped(d: string, n: nat): string
    requires |d| >= n + 4
  {
    d[..n] + "-" + d[n..|d| - 4] + "-" + d[|d| - 4..]
  }

  // Seoul numbers are cut after two digits, personal and paid numbers after four, all others after three.
  ghost predicate CutByPrefix(d: string, text: string)
    requires |d| >= 8
  {
    && (d[..2] == "02" ==> text == Grouped(d, 2))
    && (d[..4] in AREA4_PREFIXES ==> text == Grouped(d, 4))
    && (d[..2] != "02" && d[..4] !in AREA4_PREFIXES ==> text == Grouped(d, 3))
  }

  lemma AreaByPrefix(d: string)
    requires |d| >= 4
    ensures d[..2] == "02" ==> AreaLength(d) == 2
    ensures d[..4] in AREA4_PREFIXES ==> AreaLength(d) == 4
    ensures d[..2] != "02" && d[..4] !in AREA4_PREFIXES ==> AreaLength(d) == 3
  {
    var two, four := d[..2], d[..4];
    assert two[0] == d[0] && two[1] == d[1];
    assert four[0] == d[0] && four[1] == d[1] && four[2] == d[2] && four[3] == d[3];
    if HasArea4(d) {
      Area4Listed(four);
    }
  }

  lemma Area4Listed(four: string)
    requires |four| == 4 && HasArea4(four)
    ensures four in AREA4_PREFIXES
  {
    assert four == [four[0], four[1], four[2], four[3]];
  }

  lemma CutIsGrouped(d: string, n: nat)
    requires |d| > n + 4
    ensures Cut(d, n).Text() == Grouped(d, n)
  {
    var a, m, l := d[..n], d[n..|d| - 4], d[|d| - 4..];
    assert a + "-" + m + "-" + l == a + ("-" + (m + ("-" + l)));
  }

  lemma BareIsCut(d: string)
    requires Bare(d).Valid()
    ensures CutByPrefix(d, Plain(Bare(d)).Text())
  {
    hide AllDigits, AreaLength, Grouped;
    AreaByPrefix(d);
    CutIsGrouped(d, AreaLength(d));
  }

  // The keep-as-is branch of HyphenateBare is never taken: every token comes out with a hyphen.
  lemma TokenIsPlain(shape: Shape)
    requires shape.Valid()
    ensures Token(shape) == Plain(shape).Text()
    ensures shape.Bare? ==> CutByPrefix(shape.digits, Token(shape))
    ensures '-' in Token(shape)
    ensures Without(Token(shape), '-') == shape.Digits()
  {
    match shape
    case Three(a, s1, m, s2, l) =>
      TokenOfThree(a, s1, m, s2, l);
      WithoutHyphensThree(a, m, l);
      HyphenIn(a, m + ("-" + l));
    case Two(h, s, l) =>
      TokenOfTwo(h, s, l);
      WithoutHyphensTwo(h, l);
      HyphenIn(h, l);
    case Bare(d) =>
      TokenOfBare(d);
      BareIsCut(d);
      CutKeepsDigits(d, AreaLength(d));
      var three := Plain(shape);
      HyphenIn(three.area, three.middle + ("-" + three.last));
  }

  // Every result holds a hyphen, and without its hyphens it is the digits of the leftmost match in order.
  lemma CleanTelKeepsDigits(value: Option<string>)
    ensures CleanTel(value).Some? <==> FirstPhone(value).Some?
    ensures
      CleanTel(value).Some? ==>
        && FirstPhone(value).value.Valid()
        && '-' in CleanTel(value).value
        && Without(CleanTel(value).value, '-') == FirstPhone(value).value.Digits()
  {
    if FirstPhone(value).Some? {
      LeftmostStands(Strip(value.value));
      TokenIsPlain(FirstPhone(value).value);
    }
  }

  // ----- cleaning a result again

  // Two texts with a hyphen between them.
  function Join(a: string, b: string): string {
    a + ("-" + b)
  }

  lemma JoinIsText(a: string, m: string, l: string)
    ensures Three(a, "-", m, "-", l).Text() == Join(a, Join(m, l))
    ensures Two(m, "-", l).Text() == Join(m, l)
  {
  }

  lemma HyphenIsSeparator()
    ensures IsSeparator("-")
  {
    assert "-"[0] == '-';
  }

  lemma TakeDigitsThenHyphen(digits: string, rest: string)
    requires AllDigits(digits)
    ensures TakeDigits(Join(digits, rest)) == Taken(digits, "-" + rest)
  {
    TakeDigitsIs(digits, "-" + rest);
  }

  lemma TakeHyphen(rest: string)
    requires rest != "" ==> rest[0] != ' '
    ensures TakeSeparator("-" + rest) == Some(Taken("-", rest))
  {
    HyphenIsSeparator();
    TakeSeparatorIs("-", rest);
  }

  lemma TakeAllDigits(digits: string)
    requires AllDigits(digits)
    ensures TakeDigits(digits) == Taken(digits, "")
    ensures TakeSeparator("").None?
  {
    assert digits + "" == digits;
    TakeDigitsIs(digits, "");
  }

  // Two groups with a hyphen between them are no three-group number.
  lemma TwoGroupsNotThree(h: string, l: string)
    requires AllDigits(h) && AllDigits(l)
    ensures ThreeAt(Join(h, l)).None?
  {
    TakeDigitsThenHyphen(h, l);
    TakeHyphen(l);
    TakeAllDigits(l);
  }

  lemma PlainThreeFound(a: string, m: string, l: string)
    requires Three(a, "-", m, "-", l).Valid()
    ensures PhoneAt(Three(a, "-", m, "-", l).Text()) == Some(Three(a, "-", m, "-", l))
  {
    var text := Three(a, "-", m, "-", l).Text();
    ThreeAtComplete(a, "-", m, "-", l, "");
    assert text + "" == text;
  }

  lemma PlainTwoFound(h: string, l: string)
    requires Two(h, "-", l).Valid()
    ensures PhoneAt(Two(h, "-", l).Text()) == Some(Two(h, "-", l))
  {
    var text := Two(h, "-", l).Text();
    TwoGroupsNotThree(h, l);
    TwoAtComplete(h, "-", l, "");
    assert text + "" == text;
  }

  lemma FoundAtStart(text: string, shape: Shape)
    requires PhoneAt(text) == Some(shape)
    ensures Leftmost(text) == Some(shape)
  {
    hide PhoneAt;
    assert text[0..] == text;
    assert Matches(text)[0] == Some(shape);
    FirstSomeIsFirst(Matches(text), 0);
  }

  // A text that begins and ends with a digit has nothing to strip.
  lemma NothingToStrip(a: string, rest: string)
    requires AllDigits(a) && a != "" && rest != "" && IsDigit(rest[|rest| - 1])
    ensures Join(a, rest) != "" && Strip(Join(a, rest)) == Join(a, rest)
  {
    var text := Join(a, rest);
    assert text[0] == a[0] && text[|text| - 1] == rest[|rest| - 1];
    StripTidy(text);
  }

  lemma GroupsEndInDigit(m: string, l: string)
    requires AllDigits(l) && l != ""
    ensures var rest := Join(m, l); rest != "" && IsDigit(rest[|rest| - 1])
  {
    var rest := Join(m, l);
    assert rest[|rest| - 1] == l[|l| - 1];
  }

  lemma ThreeGroupsStripped(a: string, m: string, l: string)
    requires AllDigits(a) && AllDigits(l) && a != "" && l != ""
    ensures Join(a, Join(m, l)) != "" && Strip(Join(a, Join(m, l))) == Join(a, Join(m, l))
  {
    GroupsEndInDigit(m, l);
    NothingToStrip(a, Join(m, l));
  }

  lemma CleanTelOf(text: string, found: Option<Shape>)
    requires text != "" && Strip(text) == text && Leftmost(text) == found
    ensures CleanTel(Some(text)) == TokenOf(found)
  {
    assert FirstPhone(Some(text)) == found;
  }

  lemma PlainThreeIsFixed(a: string, m: string, l: string)
    requires Three(a, "-", m, "-", l).Valid()
    ensures CleanTel(Some(Join(a, Join(m, l)))) == Some(Join(a, Join(m, l)))
  {
    var shape := Three(a, "-", m, "-", l);
    JoinIsText(a, m, l);
    PlainThreeFound(a, m, l);
    FoundAtStart(Join(a, Join(m, l)), shape);
    ThreeGroupsStripped(a, m, l);
    CleanTelOf(Join(a, Join(m, l)), Some(shape));
    TokenIsPlain(shape);
  }

  lemma PlainTwoIsFixed(h: string, l: string)
    requires Two(h, "-", l).Valid()
    ensures CleanTel(Some(Join(h, l))) == Some(Join(h, l))
  {
    var shape := Two(h, "-", l);
    JoinIsText(h, h, l);
    PlainTwoFound(h, l);
    FoundAtStart(Join(h, l), shape);
    NothingToStrip(h, l);
    CleanTelOf(Join(h, l), Some(shape));
    TokenIsPlain(shape);
  }

  // A number written with plain hyphens is its own clean form.
  lemma PlainIsFixed(shape: Shape)
    requires shape.Valid() && !shape.Bare?
    ensures CleanTel(Some(Plain(shape).Text())) == Some(Plain(shape).Text())
  {
    HyphenIsSeparator();
    match shape
    case Three(a, s1, m, s2, l) =>
      PlainThreeIsFixed(a, m, l);
      JoinIsText(a, m, l);
    case Two(h, s, l) =>
      PlainTwoIsFixed(h, l);
      JoinIsText(h, h, l);
  }

  // ----- groups that hold no number: the middle one is neither three nor four digits long

  ghost predicate Misfit(a: string, m: string, l: string) {
    && AllDigits(a) && AllDigits(m) && AllDigits(l)
    && 2 <= |a| <= 4 && 1 <= |m| <= 6 && |l| == 4
    && |m| != 3 && |m| != 4 && (|a| == 4 ==> |m| < 4)
  }

  lemma FourDigitsHaveNoPhone(l: string)
    requires AllDigits(l) && |l| == 4
    ensures PhoneAt(l).None?
  {
    TakeAllDigits(l);
  }

  lemma MiddleHasNoPhone(m: string, l: string)
    requires AllDigits(m) && AllDigits(l) && 1 <= |m| <= 6 && |m| != 4 && |l| == 4
    ensures PhoneAt(Join(m, l)).None?
  {
    TwoGroupsNotThree(m, l);
    TakeDigitsThenHyphen(m, l);
  }

  lemma MisfitHasNoPhone(a: string, m: string, l: string)
    requires Misfit(a, m, l)
    ensures PhoneAt(Join(a, Join(m, l))).None?
  {
    hide TakeDigits, TakeSeparator, AllDigits, Join;
    var rest := Join(m, l);
    DigitFirst(m, l);
    TakeDigitsThenHyphen(a, rest);
    TakeHyphen(rest);
    TakeDigitsThenHyphen(m, l);
  }

  lemma DigitFirst(digits: string, rest: string)
    requires AllDigits(digits) && digits != ""
    ensures Join(digits, rest) != "" && Join(digits, rest)[0] != ' '
  {
    hide AllDigits;
    assert IsDigit(digits[0]) by {
      FirstIsDigit(digits);
    }
    assert Join(digits, rest)[0] == digits[0];
  }

  lemma FirstIsDigit(digits: string)
    requires AllDigits(digits) && digits != ""
    ensures IsDigit(digits[0])
  {
    hide IsDigit;
  }

  lemma HyphenHasNoPhone(rest: string)
    ensures PhoneAt("-" + rest).None?
  {
    TakeDigitsIs("", "-" + rest);
    assert "" + ("-" + rest) == "-" + rest;
  }

  // Behind a first group, the pattern finds what it finds in the rest.
  lemma GroupSkipped(digits: string, rest: string, i: nat)
    requires AllDigits(digits) && i <= |digits| + 1 + |rest|
    requires PhoneAt(Join(digits, rest)).None?
    requires i > |digits| ==> PhoneFrom(rest, i - |digits| - 1).None?
    ensures PhoneFrom(Join(digits, rest), i).None?
  {
    var text, p := Join(digits, rest), |digits|;
    if i == 0 {
      assert text[0..] == text;
    } else if i < p {
      assert text[i - 1] == digits[i - 1];
    } else if i == p {
      HyphenHasNoPhone(rest);
      assert text[p..] == "-" + rest;
    } else {
      assert text[i..] == rest[i - p - 1..];
      assert i > p + 1 ==> text[i - 1] == rest[i - p - 2];
    }
  }

  lemma LastGroupSkipped(l: string, i: nat)
    requires AllDigits(l) && |l| == 4 && i <= |l|
    ensures PhoneFrom(l, i).None?
  {
    FourDigitsHaveNoPhone(l);
    assert l[0..] == l;
  }

  lemma MiddleSkipped(m: string, l: string, i: nat)
    requires AllDigits(m) && AllDigits(l) && 1 <= |m| <= 6 && |m| != 4 && |l| == 4
    requires i <= |m| + 1 + |l|
    ensures PhoneFrom(Join(m, l), i).None?
  {
    MiddleHasNoPhone(m, l);
    if i > |m| {
      LastGroupSkipped(l, i - |m| - 1);
    }
    GroupSkipped(m, l, i);
  }

  lemma MisfitSkipped(a: string, m: string, l: string, i: nat)
    requires Misfit(a, m, l) && i <= |a| + |m| + |l| + 2
    ensures PhoneFrom(Join(a, Join(m, l)), i).None?
  {
    hide PhoneFrom, PhoneAt, AllDigits;
    MisfitHasNoPhone(a, m, l);
    if i > |a| {
      MiddleSkipped(m, l, i - |a| - 1);
    }
    GroupSkipped(a, Join(m, l), i);
  }

  lemma MisfitNotFound(a: string, m: string, l: string)
    requires Misfit(a, m, l)
    ensures Leftmost(Join(a, Join(m, l))) == None
  {
    var text := Join(a, Join(m, l));
    var matches := Matches(text);
    forall i | 0 <= i < |matches|
      ensures matches[i].None?
    {
      MisfitSkipped(a, m, l, i);
      assert matches[i] == PhoneFrom(text, i);
    }
  }

  lemma MisfitCleansToNothing(a: string, m: string, l: string)
    requires Misfit(a, m, l)
    ensures CleanTel(Some(Join(a, Join(m, l)))) == None
  {
    ThreeGroupsStripped(a, m, l);
    MisfitNotFound(a, m, l);
    CleanTelOf(Join(a, Join(m, l)), None);
  }

  // Digits between area and the last four.
  function MiddleLength(digits: string): int {
    |digits| - AreaLength(digits) - 4
  }

  // 9 or 10 digits after the prefix 02, 11 or 12 after a four-digit one, 10 or 11 otherwise.
  ghost predicate UsualLength(d: string)
    requires |d| >= 4
  {
    if d[..2] == "02" then 9 <= |d| <= 10
    else if d[..4] in AREA4_PREFIXES then 11 <= |d| <= 12
    else 10 <= |d| <= 11
  }

  lemma BareAgain(d: string)
    requires Bare(d).Valid()
    ensures
      var result := Plain(Bare(d)).Text();
      CleanTel(Some(result)) == if 3 <= MiddleLength(d) <= 4 then Some(result) else None
  {
    hide AllDigits, AreaLength, CleanTel;
    var n := AreaLength(d);
    var a, m, l := d[..n], d[n..|d| - 4], d[|d| - 4..];
    PiecesAreDigits(d, n, |d| - 4);
    JoinIsText(a, m, l);
    if 3 <= MiddleLength(d) <= 4 {
      HyphenIsSeparator();
      PlainThreeIsFixed(a, m, l);
    } else {
      MisfitCleansToNothing(a, m, l);
    }
  }

  // Cleaning a result again returns it, except when it came from a bare run of unusual length for its prefix: then it
  // returns nothing.
  lemma CleanTelAgain(value: Option<string>)
    requires CleanTel(value).Some?
    ensures FirstPhone(value).Some? && FirstPhone(value).value.Valid()
    ensures
      var shape, result := FirstPhone(value).value, CleanTel(value);
      CleanTel(result) == if shape.Bare? && !UsualLength(shape.digits) then None else result
  {
    hide Strip, AllDigits, AreaLength, CutByPrefix, Token, Plain, Leftmost, Search, IsSeparator, Without, StandsAt;
    var shape := FirstPhone(value).value;
    LeftmostStands(Strip(value.value));
    TokenIsPlain(shape);
    if shape.Bare? {
      AreaByPrefix(shape.digits);
      BareAgain(shape.digits);
    } else {
      PlainIsFixed(shape);
    }
  }

  // A bare number comes out as its digits, cut by its prefix.
  lemma CleanBareNumber(d: string)
    requires 9 <= |d| <= 12 && d[0] == '0' && forall i :: 0 <= i < |d| ==> IsDigit(d[i])
    ensures CleanTel(Some(d)).Some? && CutByPrefix(d, CleanTel(Some(d)).value)
  {
    hide IsDigit, CutByPrefix, CleanTel, Token, Strip, Leftmost;
    assert Bare(d).Valid();
    BareIsFound(d);
    CleanTelOf(d, Some(Bare(d)));
    TokenIsPlain(Bare(d));
  }

  // Such a number: an eleven-digit Seoul number is hyphenated into a form that cleans to nothing.
  lemma TelTwiceCanDiffer(d: string)
    requires d == "02123456789"
    ensures CleanTel(Some(d)).Some? && CleanTel(CleanTel(Some(d))) == None
  {
    hide IsDigit, AllDigits, CleanTel, PhoneAt, Leftmost, Strip;
    SeoulNumber(d);
    BareIsFound(d);
    CleanTelOf(d, Some(Bare(d)));
    assert FirstPhone(Some(d)) == Some(Bare(d));
    CleanTelAgain(Some(d));
  }

  lemma SeoulNumber(d: string)
    requires d == "02123456789"
    ensures Bare(d).Valid() && !UsualLength(d)
  {
  }

  // A bare number is found whole.
  lemma BareIsFound(d: string)
    requires Bare(d).Valid()
    ensures Leftmost(d) == Some(Bare(d)) && Strip(d) == d
  {
    hide TakeDigits, TakeSeparator, Leftmost, Strip, InDigitBlock;
    TakeAllDigits(d);
    FoundAtStart(d, Bare(d));
    assert IsDigit(d[0]) && IsDigit(d[|d| - 1]);
    StripTidy(d);
  }
}
