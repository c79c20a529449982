/** The text from which the hybrid search builds its cache key: keyword, sorted tag ids and the vector to four
decimals, joined by `|`. A keyword may itself contain `|`.
 */
module CacheKey {
  import opened StableSort

  // ----- numbers as text

  function DigitChar(d: int): (c: char)
    requires 0 <= d < 10
    ensures '0' <= c <= '9'
  {
    ('0' as int + d) as char
  }

  function Digits(n: nat): (s: string)
    ensures s != ""
  {
    if n < 10 then [DigitChar(n)] else Digits(n / 10) + [DigitChar(n % 10)]
  }

  // str(n)
  function Decimal(n: int): string {
    if n < 0 then "-" + Digits(-n) else Digits(n)
  }

  function HalfEven(x: real): int {
    var down, part := x.Floor, x - x.Floor as real;
    if part < 0.5 then down
    else if part > 0.5 then down + 1
    else if down % 2 == 0 then down else down + 1
  }

  // A number rounded to four decimals: its sign, kept even when nothing else is left, and ten-thousandths.
  datatype Rounded = Rounded(negative: bool, units: nat)

  function RoundTo4(v: real): Rounded {
    if v < 0.0 then Rounded(true, HalfEven(-v * 10000.0)) else Rounded(false, HalfEven(v * 10000.0))
  }

  function Padded4(n: nat): (s: string)
    requires n < 10000
    ensures |s| == 4
  {
    [DigitChar(n / 1000), DigitChar(n / 100 % 10), DigitChar(n / 10 % 10), DigitChar(n % 10)]
  }

  function UnitsText(units: nat): (s: string)
    ensures |s| > 5
  {
    Digits(units / 10000) + "." + Padded4(units % 10000)
  }

  function FixedText(r: Rounded): string {
    if r.negative then "-" + UnitsText(r.units) else UnitsText(r.units)
  }

  // f"{v:.4f}"
  function Fixed4(v: real): string {
    FixedText(RoundTo4(v))
  }

  function Join(parts: seq<string>): string {
    if parts == [] then ""
    else if |parts| == 1 then parts[0]
    else parts[0] + "," + Join(parts[1..])
  }

  // ----- the payload

  function SortedTags(tags: seq<int>): seq<int> {
    Sorted(tags, t => t as real)
  }

  function TagText(tags: seq<int>): string {
    Join(seq(|tags|, i requires 0 <= i < |tags| => Decimal(tags[i])))
  }

  function RoundVector(vector: seq<real>): seq<Rounded> {
    seq(|vector|, i requires 0 <= i < |vector| => RoundTo4(vector[i]))
  }

  function VectorText(vector: seq<real>): string {
    Join(seq(|vector|, i requires 0 <= i < |vector| => Fixed4(vector[i])))
  }

  function Payload(keyword: string, tags: seq<int>, vector: seq<real>): string {
    keyword + "|" + TagText(SortedTags(tags)) + "|" + VectorText(vector)
  }

  // ----- reading numbers back

  predicate IsDigit(c: char) {
    '0' <= c <= '9'
  }

  function ValueOf(s: string): int {
    if s == "" then 0 else 10 * ValueOf(s[..|s| - 1]) + (s[|s| - 1] as int - '0' as int)
  }

  lemma {:induction false} DigitsRoundTrip(n: nat)
    ensures ValueOf(Digits(n)) == n
    ensures Digits(n) != "" && forall i :: 0 <= i < |Digits(n)| ==> IsDigit(Digits(n)[i])
  {
    if n >= 10 {
      DigitsRoundTrip(n / 10);
      assert Digits(n)[..|Digits(n)| - 1] == Digits(n / 10);
    } else {
      assert Digits(n)[..0] == "";
    }
  }

  lemma DecimalSign(n: int)
    ensures Decimal(n) != "" && (Decimal(n)[0] == '-' <==> n < 0)
  {
    DigitsRoundTrip(if n < 0 then -n else n);
    hide Digits;
  }

  lemma DecimalInjective(a: int, b: int)
    requires Decimal(a) == Decimal(b)
    ensures a == b
  {
    DecimalSign(a);
    DecimalSign(b);
    DigitsRoundTrip(if a < 0 then -a else a);
    DigitsRoundTrip(if b < 0 then -b else b);
    hide Digits;
    if a < 0 {
      assert Decimal(a)[1..] == Digits(-a) && Decimal(b)[1..] == Digits(-b);
    }
  }

  lemma DigitCharInjective(d: int, e: int)
    requires 0 <= d < 10 && 0 <= e < 10 && DigitChar(d) == DigitChar(e)
    ensures d == e
  {
  }

  lemma HundredsQuotient(n: nat)
    ensures n / 100 == n / 10 / 10
  {
  }

  lemma ThousandsQuotient(n: nat)
    ensures n / 1000 == n / 100 / 10
  {
  }

  lemma FourDigits(n: nat)
    ensures n == 1000 * (n / 1000) + 100 * (n / 100 % 10) + 10 * (n / 10 % 10) + n % 10
  {
    HundredsQuotient(n);
    ThousandsQuotient(n);
  }

  lemma PaddedInjective(a: nat, b: nat)
    requires a < 10000 && b < 10000 && Padded4(a) == Padded4(b)
    ensures a == b
  {
    hide DigitChar;
    var s, t := Padded4(a), Padded4(b);
    assert s[0] == t[0] && s[1] == t[1] && s[2] == t[2] && s[3] == t[3];
    DigitCharInjective(a / 1000, b / 1000);
    DigitCharInjective(a / 100 % 10, b / 100 % 10);
    DigitCharInjective(a / 10 % 10, b / 10 % 10);
    DigitCharInjective(a % 10, b % 10);
    FourDigits(a);
    FourDigits(b);
  }

  lemma UnitsInjective(a: nat, b: nat)
    requires UnitsText(a) == UnitsText(b)
    ensures a == b
  {
    DigitsRoundTrip(a / 10000);
    DigitsRoundTrip(b / 10000);
    hide Digits, Padded4, ValueOf;
    var s, t := UnitsText(a), UnitsText(b);
    assert s[..|s| - 5] == Digits(a / 10000) && t[..|t| - 5] == Digits(b / 10000);
    assert s[|s| - 4..] == Padded4(a % 10000) && t[|t| - 4..] == Padded4(b % 10000);
    PaddedInjective(a % 10000, b % 10000);
  }

  lemma UnitsStart(n: nat)
    ensures IsDigit(UnitsText(n)[0])
  {
    DigitsRoundTrip(n / 10000);
  }

  lemma FixedInjective(a: Rounded, b: Rounded)
    requires FixedText(a) == FixedText(b)
    ensures a == b
  {
    UnitsStart(a.units);
    UnitsStart(b.units);
    hide UnitsText;
    var s, t := FixedText(a), FixedText(b);
    assert s[0] == '-' <==> a.negative;
    assert t[0] == '-' <==> b.negative;
    var k := if a.negative then 1 else 0;
    assert s[k..] == UnitsText(a.units) && t[k..] == UnitsText(b.units);
    UnitsInjective(a.units, b.units);
  }

  lemma HalfEvenNear(x: real)
    ensures
      var e := HalfEven(x) as real - x;
      -0.5 <= e <= 0.5 && (e == 0.5 || e == -0.5 ==> HalfEven(x) % 2 == 0)
  {
  }

  // Four decimals are half a ten-thousandth from the number at most, and ties go to the even one.
  lemma RoundTo4Near(v: real)
    ensures
      var r, scaled := RoundTo4(v), (if v < 0.0 then -v else v) * 10000.0;
      var e := r.units as real - scaled;
      && -0.5 <= e <= 0.5
      && (e == 0.5 || e == -0.5 ==> r.units % 2 == 0)
      && (r.negative <==> v < 0.0)
  {
    HalfEvenNear((if v < 0.0 then -v else v) * 10000.0);
    assert RoundTo4(v).units == HalfEven((if v < 0.0 then -v else v) * 10000.0);
    hide HalfEven;
  }

  // ----- taking joined text apart

  predicate Plain(part: string) {
    part != "" && forall i :: 0 <= i < |part| ==> part[i] != ',' && part[i] != '|'
  }

  ghost predicate AllPlain(parts: seq<string>) {
    forall i :: 0 <= i < |parts| ==> Plain(parts[i])
  }

  // Where the first part ends, the text ends or has a comma.
  lemma JoinHead(parts: seq<string>)
    requires parts != [] && AllPlain(parts)
    ensures
      var s, n := Join(parts), |parts[0]|;
      && n <= |s| && s[..n] == parts[0]
      && (if |parts| == 1 then |s| == n else |s| > n && s[n] == ',' && s[n + 1..] == Join(parts[1..]))
  {
  }

  lemma HeadNoLonger(a: seq<string>, b: seq<string>)
    requires a != [] && b != [] && AllPlain(a) && AllPlain(b) && Join(a) == Join(b)
    ensures |b[0]| <= |a[0]|
  {
    JoinHead(a);
    JoinHead(b);
    var s := Join(a);
    assert Plain(b[0]);
    forall i | 0 <= i < |b[0]|
      ensures s[i] != ','
    {
      assert s[..|b[0]|][i] == b[0][i];
    }
  }

  lemma JoinNotEmpty(parts: seq<string>)
    requires parts != [] && AllPlain(parts)
    ensures Join(parts) != ""
  {
    JoinHead(parts);
    assert Plain(parts[0]);
  }

  lemma {:induction false} JoinInjective(a: seq<string>, b: seq<string>)
    requires AllPlain(a) && AllPlain(b) && Join(a) == Join(b)
    ensures a == b
  {
    if a == [] {
      if b != [] {
        JoinNotEmpty(b);
      }
    } else if b == [] {
      JoinNotEmpty(a);
    } else {
      JoinHead(a);
      JoinHead(b);
      HeadNoLonger(a, b);
      HeadNoLonger(b, a);
      if |a| > 1 {
        JoinInjective(a[1..], b[1..]);
        assert a == [a[0]] + a[1..] && b == [b[0]] + b[1..];
      }
    }
  }

  lemma {:induction false} JoinHasNoBar(parts: seq<string>)
    requires AllPlain(parts)
    ensures '|' !in Join(parts)
  {
    if parts != [] {
      assert Plain(parts[0]);
      if |parts| > 1 {
        JoinHasNoBar(parts[1..]);
      }
    }
  }

  // The last bar tells where the right part starts.
  lemma SplitAtLastBar(x: string, a: string, y: string, b: string)
    requires x + "|" + a == y + "|" + b && '|' !in a && '|' !in b
    ensures x == y && a == b
  {
    var s := x + "|" + a;
    forall j | |x| < j < |s|
      ensures s[j] != '|'
    {
      assert s[j] == a[j - |x| - 1];
    }
    forall j | |y| < j < |s|
      ensures s[j] != '|'
    {
      assert s[j] == b[j - |y| - 1];
    }
    assert s[|x|] == '|' && s[|y|] == '|';
    assert s[..|x|] == x && s[..|y|] == y;
    assert s[|x| + 1..] == a && s[|y| + 1..] == b;
  }

  lemma DecimalPlain(n: int)
    ensures Plain(Decimal(n))
  {
    DigitsRoundTrip(if n < 0 then -n else n);
    hide Digits, ValueOf;
  }

  lemma FixedPlain(r: Rounded)
    ensures Plain(FixedText(r))
  {
    DigitsRoundTrip(r.units / 10000);
    hide Digits, ValueOf, DigitChar;
  }

  lemma TagTextInjective(a: seq<int>, b: seq<int>)
    requires TagText(a) == TagText(b)
    ensures a == b
  {
    hide Decimal, Join, Plain;
    var s := seq(|a|, i requires 0 <= i < |a| => Decimal(a[i]));
    var t := seq(|b|, i requires 0 <= i < |b| => Decimal(b[i]));
    forall n: int
      ensures Plain(Decimal(n))
    {
      DecimalPlain(n);
    }
    JoinInjective(s, t);
    forall i | 0 <= i < |a|
      ensures a[i] == b[i]
    {
      assert s[i] == t[i];
      DecimalInjective(a[i], b[i]);
    }
  }

  lemma TagTextHasNoBar(a: seq<int>)
    ensures '|' !in TagText(a)
  {
    hide Decimal, Join, Plain;
    forall n: int
      ensures Plain(Decimal(n))
    {
      DecimalPlain(n);
    }
    JoinHasNoBar(seq(|a|, i requires 0 <= i < |a| => Decimal(a[i])));
  }

  lemma VectorTextInjective(v: seq<real>, w: seq<real>)
    requires VectorText(v) == VectorText(w)
    ensures RoundVector(v) == RoundVector(w)
  {
    hide FixedText, RoundTo4, Join, Plain;
    var s := seq(|v|, i requires 0 <= i < |v| => Fixed4(v[i]));
    var t := seq(|w|, i requires 0 <= i < |w| => Fixed4(w[i]));
    forall x: real
      ensures Plain(Fixed4(x))
    {
      FixedPlain(RoundTo4(x));
    }
    JoinInjective(s, t);
    forall i | 0 <= i < |v|
      ensures RoundVector(v)[i] == RoundVector(w)[i]
    {
      assert s[i] == t[i];
      FixedInjective(RoundTo4(v[i]), RoundTo4(w[i]));
    }
  }

  // The text depends on the rounded vector alone.
  lemma VectorTextOfRounded(v: seq<real>, w: seq<real>)
    requires RoundVector(v) == RoundVector(w)
    ensures VectorText(v) == VectorText(w)
  {
    hide FixedText, RoundTo4, Join;
    assert |v| == |RoundVector(v)| == |w|;
    forall i | 0 <= i < |v|
      ensures Fixed4(v[i]) == Fixed4(w[i])
    {
      assert RoundVector(v)[i] == RoundVector(w)[i];
    }
    assert seq(|v|, i requires 0 <= i < |v| => Fixed4(v[i])) == seq(|w|, i requires 0 <= i < |w| => Fixed4(w[i]));
  }

  lemma VectorTextHasNoBar(v: seq<real>)
    ensures '|' !in VectorText(v)
  {
    hide FixedText, RoundTo4, Join, Plain;
    forall x: real
      ensures Plain(Fixed4(x))
    {
      FixedPlain(RoundTo4(x));
    }
    JoinHasNoBar(seq(|v|, i requires 0 <= i < |v| => Fixed4(v[i])));
  }

  // ----- sorted tag lists

  ghost predicate Ascending(s: seq<int>) {
    forall i, j :: 0 <= i < j < |s| ==> s[i] <= s[j]
  }

  lemma HeadIsLeast(a: seq<int>, b: seq<int>)
    requires Ascending(a) && multiset(a) == multiset(b) && a != [] && b != []
    ensures a[0] <= b[0]
  {
    assert b[0] in multiset(b);
    assert b[0] in a;
  }

  lemma {:induction false} AscendingUnique(a: seq<int>, b: seq<int>)
    requires Ascending(a) && Ascending(b) && multiset(a) == multiset(b)
    ensures a == b
  {
    if a == [] {
      assert |b| == |multiset(b)|;
    } else {
      SameBagNotEmpty(a, b);
      HeadIsLeast(a, b);
      HeadIsLeast(b, a);
      TailBag(a);
      TailBag(b);
      AscendingUnique(a[1..], b[1..]);
      assert a == [a[0]] + a[1..] && b == [b[0]] + b[1..];
    }
  }

  lemma SameBagNotEmpty(a: seq<int>, b: seq<int>)
    requires a != [] && multiset(a) == multiset(b)
    ensures b != []
  {
    assert a[0] in multiset(b);
  }

  lemma TailBag(a: seq<int>)
    requires a != []
    ensures multiset(a[1..]) == multiset(a) - multiset{a[0]}
  {
    assert a == [a[0]] + a[1..];
  }

  // Sorted tags ascend, and two lists sort to the same one exactly when they hold the same tags, as often.
  lemma SortedTagsEqual(a: seq<int>, b: seq<int>)
    ensures Ascending(SortedTags(a)) && multiset(SortedTags(a)) == multiset(a)
    ensures SortedTags(a) == SortedTags(b) <==> multiset(a) == multiset(b)
  {
    var key: Key := t => t as real;
    SortedIsStable(a, key);
    SortedIsStable(b, key);
    assert Ascending(SortedTags(a)) && Ascending(SortedTags(b)) by {
      forall s: seq<int> | Ordered(s, key)
        ensures Ascending(s)
      {
        assert forall i, j :: 0 <= i < j < |s| ==> key(s[i]) <= key(s[j]);
      }
    }
    if multiset(a) == multiset(b) {
      AscendingUnique(SortedTags(a), SortedTags(b));
    }
  }

  /** Two requests have the same payload exactly when the keyword, the tags up to order, and every component of the
  vector to four decimals are the same; bars inside keywords cannot confuse it. */
  lemma PayloadInjective(k: string, a: seq<int>, v: seq<real>, l: string, b: seq<int>, w: seq<real>)
    ensures
      Payload(k, a, v) == Payload(l, b, w) <==>
        k == l && multiset(a) == multiset(b) && RoundVector(v) == RoundVector(w)
  {
    SortedTagsEqual(a, b);
    hide SortedTags, TagText, VectorText, RoundVector;
    var s, t := TagText(SortedTags(a)), TagText(SortedTags(b));
    var p, q := VectorText(v), VectorText(w);
    if Payload(k, a, v) == Payload(l, b, w) {
      VectorTextHasNoBar(v);
      VectorTextHasNoBar(w);
      SplitAtLastBar(k + "|" + s, p, l + "|" + t, q);
      VectorTextInjective(v, w);
      TagTextHasNoBar(SortedTags(a));
      TagTextHasNoBar(SortedTags(b));
      SplitAtLastBar(k, s, l, t);
      TagTextInjective(SortedTags(a), SortedTags(b));
    } else if RoundVector(v) == RoundVector(w) {
      VectorTextOfRounded(v, w);
    }
  }
}
