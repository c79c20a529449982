/** Ranking metrics of the recommendation feed: Recall@K and NDCG@K.

The rank discount `1 / log2(i + 2)` enters as any positive, strictly decreasing function, so the
results hold for the logarithmic discount and for every other one of that shape.
 */
module EvalMetrics {
  import opened Common

  type Discount = nat -> real

  ghost predicate IsDiscount(d: Discount) {
    && (forall i: nat :: d(i) > 0.0)
    && (forall i: nat, j: nat :: i < j ==> d(j) < d(i))
  }

  function Gain(d: Discount, top: seq<int>, relevant: set<int>): real {
    if top == [] then 0.0
    else
      var last := |top| - 1;
      Gain(d, top[..last], relevant) + if top[last] in relevant then d(last) else 0.0
  }

  function IdealGain(d: Discount, hits: int): real
    decreases hits
  {
    if hits <= 0 then 0.0 else IdealGain(d, hits - 1) + d(hits - 1)
  }

  function IdealHits(relevant: set<int>, k: int): int {
    if |relevant| <= k then |relevant| else k
  }

  function Ndcg(d: Discount, recommended: seq<int>, relevant: set<int>, k: int): real {
    if relevant == {} then 0.0
    else
      var ideal := IdealGain(d, IdealHits(relevant, k));
      if ideal == 0.0 then 0.0 else Gain(d, Top(recommended, k), relevant) / ideal
  }

  function Recall(recommended: seq<int>, relevant: set<int>, k: int): real {
    if relevant == {} then 0.0
    else
      var hits := Elements(Top(recommended, k)) * relevant;
      |hits| as real / |relevant| as real
  }

  // ----- counting hits

  ghost function Hits(top: seq<int>, relevant: set<int>): nat {
    if top == [] then 0
    else Hits(top[..|top| - 1], relevant) + if top[|top| - 1] in relevant then 1 else 0
  }

  lemma {:induction false} HitsAreDistinct(top: seq<int>, relevant: set<int>)
    requires NoRepeats(top)
    ensures Hits(top, relevant) == |Elements(top) * relevant|
  {
    hide NoRepeats;
    if top == [] {
      assert Elements(top) * relevant == {};
    } else {
      var init, x := top[..|top| - 1], top[|top| - 1];
      LastIsNew(top);
      HitsAreDistinct(init, relevant);
      assert top == init + [x];
      OneMoreElement(init, x, relevant);
    }
  }

  lemma LastIsNew(top: seq<int>)
    requires NoRepeats(top) && top != []
    ensures NoRepeats(top[..|top| - 1]) && top[|top| - 1] !in top[..|top| - 1]
  {
  }

  lemma OneMoreElement(init: seq<int>, x: int, relevant: set<int>)
    requires x !in init
    ensures |Elements(init + [x]) * relevant| == |Elements(init) * relevant| + if x in relevant then 1 else 0
  {
    var hit := Elements(init) * relevant;
    assert Elements(init + [x]) * relevant == if x in relevant then hit + {x} else hit;
  }

  lemma {:induction false} HitsBounded(top: seq<int>, relevant: set<int>)
    requires NoRepeats(top)
    ensures Hits(top, relevant) <= |top| && Hits(top, relevant) <= |relevant|
  {
    HitsAreDistinct(top, relevant);
    var hit := Elements(top) * relevant;
    SubsetSize(hit, relevant);
    HitsAtMostLength(top, relevant);
  }

  lemma {:induction false} HitsAtMostLength(top: seq<int>, relevant: set<int>)
    ensures Hits(top, relevant) <= |top|
  {
    if top != [] {
      HitsAtMostLength(top[..|top| - 1], relevant);
    }
  }

  // ----- gain against the ideal gain

  lemma {:induction false} IdealGainGrows(d: Discount, a: int, b: int)
    requires IsDiscount(d) && 0 <= a <= b
    ensures 0.0 <= IdealGain(d, a) <= IdealGain(d, b)
    ensures a < b ==> IdealGain(d, a) < IdealGain(d, b)
    decreases b
  {
    if a < b {
      IdealGainGrows(d, a, b - 1);
    } else if a > 0 {
      IdealGainGrows(d, a - 1, b - 1);
    }
  }

  // The first `h` places are all hits, where h is the number of hits.
  ghost predicate HitsFirst(top: seq<int>, relevant: set<int>) {
    forall i :: 0 <= i < Hits(top, relevant) && i < |top| ==> top[i] in relevant
  }

  // A list with h hits gains at most the ideal gain of h hits, and exactly that only when the hits come first.
  lemma {:induction false} GainBelowIdeal(d: Discount, top: seq<int>, relevant: set<int>)
    requires IsDiscount(d)
    ensures 0.0 <= Gain(d, top, relevant) <= IdealGain(d, Hits(top, relevant))
    ensures Gain(d, top, relevant) == IdealGain(d, Hits(top, relevant)) <==> HitsFirst(top, relevant)
  {
    hide IsDiscount, HitsFirst, IdealGain;
    if top == [] {
      NoGain(d, relevant);
    } else {
      var init := top[..|top| - 1];
      GainBelowIdeal(d, init, relevant);
      HitsAtMostLength(init, relevant);
      HitsFirstStep(top, relevant);
      NextIdealGain(d, Hits(init, relevant), |init|);
    }
  }

  lemma NoGain(d: Discount, relevant: set<int>)
    ensures Gain(d, [], relevant) == 0.0 && IdealGain(d, 0) == 0.0 && HitsFirst([], relevant)
  {
  }

  // The next place of the ideal list counts at least as much as a place further down.
  lemma NextIdealGain(d: Discount, h: nat, place: nat)
    requires IsDiscount(d) && h <= place
    ensures IdealGain(d, h + 1) == IdealGain(d, h) + d(h)
    ensures 0.0 < d(place) && (if h == place then d(place) == d(h) else d(place) < d(h))
  {
  }

  // One more place: hits still come first if they did, unless a hit lands behind a miss.
  lemma HitsFirstStep(top: seq<int>, relevant: set<int>)
    requires top != []
    ensures
      var init, last := top[..|top| - 1], top[|top| - 1];
      HitsFirst(top, relevant) <==>
      HitsFirst(init, relevant) && (last in relevant ==> Hits(init, relevant) == |init|)
  {
    var init, last := top[..|top| - 1], top[|top| - 1];
    var h := Hits(init, relevant);
    HitsAtMostLength(init, relevant);
    assert forall i :: 0 <= i < |init| ==> init[i] == top[i];
    if last in relevant && h < |init| && HitsFirst(top, relevant) {
      AllHitsCounted(init, relevant, h + 1);
    }
  }

  // A list whose first m places are hits has at least m hits.
  lemma {:induction false} AllHitsCounted(top: seq<int>, relevant: set<int>, m: nat)
    requires m <= |top|
    requires forall i :: 0 <= i < m ==> top[i] in relevant
    ensures Hits(top, relevant) >= m
  {
    if top != [] {
      var init := top[..|top| - 1];
      AllHitsCounted(init, relevant, if m <= |init| then m else m - 1);
    }
  }

  lemma TopKeepsNoRepeats(recommended: seq<int>, k: int)
    requires NoRepeats(recommended)
    ensures NoRepeats(Top(recommended, k))
    ensures k >= 0 ==> |Top(recommended, k)| <= k
  {
  }

  // ----- main results

  // The first k hold no more hits, repeats counted, than there are relevant items.
  ghost predicate HitsFit(recommended: seq<int>, relevant: set<int>, k: int) {
    relevant == {} || k <= 0 || Hits(Top(recommended, k), relevant) <= |relevant|
  }

  lemma NoRepeatsFit(recommended: seq<int>, relevant: set<int>, k: int)
    requires NoRepeats(recommended)
    ensures HitsFit(recommended, relevant, k)
  {
    TopKeepsNoRepeats(recommended, k);
    HitsBounded(Top(recommended, k), relevant);
  }

  lemma NdcgWithinUnit(d: Discount, recommended: seq<int>, relevant: set<int>, k: int)
    requires IsDiscount(d) && HitsFit(recommended, relevant, k)
    ensures 0.0 <= Ndcg(d, recommended, relevant, k) <= 1.0
  {
    var m := IdealHits(relevant, k);
    if relevant != {} && m > 0 {
      var top := Top(recommended, k);
      HitsAtMostLength(top, relevant);
      GainBelowIdeal(d, top, relevant);
      IdealGainGrows(d, Hits(top, relevant), m);
      IdealGainGrows(d, 0, m);
      QuotientWithinUnit(Gain(d, top, relevant), IdealGain(d, m));
    }
  }

  // ----- the bound is exact

  // A discount so flat that any additional hit outweighs every loss by rank.
  function Flat(c: real): Discount {
    (i: nat) => c + Halved(i)
  }

  function Halved(i: nat): (r: real)
    ensures 0.0 < r <= 1.0
  {
    if i == 0 then 1.0 else Halved(i - 1) / 2.0
  }

  lemma {:induction false} HalvedShrinks(i: nat, j: nat)
    requires i < j
    ensures Halved(j) < Halved(i)
  {
    if i + 1 < j {
      HalvedShrinks(i, j - 1);
    }
  }

  lemma FlatIsDiscount(c: real)
    requires c >= 0.0
    ensures IsDiscount(Flat(c))
  {
    forall i: nat, j: nat | i < j
      ensures Flat(c)(j) < Flat(c)(i)
    {
      HalvedShrinks(i, j);
    }
  }

  lemma OneMore(n: nat, c: real)
    ensures (n + 1) as real * c == n as real * c + c
  {
  }

  // With a discount above c, h hits gain at least h * c; with one of at most e, m ideal hits gain at most m * e.
  lemma {:induction false} GainAtLeast(d: Discount, c: real, top: seq<int>, relevant: set<int>)
    requires forall i: nat :: c < d(i)
    ensures Gain(d, top, relevant) >= Hits(top, relevant) as real * c
  {
    if top != [] {
      var init := top[..|top| - 1];
      GainAtLeast(d, c, init, relevant);
      OneMore(Hits(init, relevant), c);
    }
  }

  lemma {:induction false} IdealGainAtMost(d: Discount, e: real, m: nat)
    requires forall i: nat :: d(i) <= e
    ensures IdealGain(d, m) <= m as real * e
  {
    if m > 0 {
      IdealGainAtMost(d, e, m - 1);
      OneMore(m - 1, e);
    }
  }

  // More hits than m outweigh m ideal ones for such a discount.
  lemma GainExceedsIdeal(d: Discount, top: seq<int>, relevant: set<int>, m: nat)
    requires forall i: nat :: m as real + 1.0 < d(i) <= m as real + 2.0
    requires Hits(top, relevant) > m
    ensures Gain(d, top, relevant) > IdealGain(d, m)
  {
    hide Gain, IdealGain, Hits;
    var c := m as real + 1.0;
    GainAtLeast(d, c, top, relevant);
    IdealGainAtMost(d, c + 1.0, m);
    MoreHitsOutweigh(Hits(top, relevant), m, c);
  }

  lemma TooManyHits(d: Discount, recommended: seq<int>, relevant: set<int>, k: int)
    requires !HitsFit(recommended, relevant, k)
    requires IsDiscount(d) && forall i: nat :: |relevant| as real + 1.0 < d(i) <= |relevant| as real + 2.0
    ensures Ndcg(d, recommended, relevant, k) > 1.0
  {
    hide Gain, IdealGain, Hits, IsDiscount;
    var m, top := |relevant|, Top(recommended, k);
    HitsAtMostLength(top, relevant);
    GainExceedsIdeal(d, top, relevant, m);
    IdealGainGrows(d, 0, m);
    QuotientAboveOne(Gain(d, top, relevant), IdealGain(d, m));
  }

  lemma QuotientAboveOne(a: real, b: real)
    requires a > b > 0.0
    ensures a / b > 1.0
  {
    QuotientGrows(b, a, b);
  }

  lemma MoreHitsOutweigh(h: nat, m: nat, c: real)
    requires h > m && c == m as real + 1.0
    ensures h as real * c > m as real * (c + 1.0)
  {
    var n, x := m as real, h as real;
    NonNegativeProduct(x - n - 1.0, c);
    assert (x - n - 1.0) * c == x * c - n * c - c;
    assert n * (c + 1.0) == n * c + n;
  }

  lemma NonNegativeProduct(a: real, b: real)
    requires a >= 0.0 && b >= 0.0
    ensures a * b >= 0.0
  {
  }

  // NDCG stays within 1 for every discount exactly when the hits fit.
  lemma NdcgBoundedExactly(recommended: seq<int>, relevant: set<int>, k: int)
    ensures
      (forall d: Discount :: IsDiscount(d) ==> Ndcg(d, recommended, relevant, k) <= 1.0) <==>
      HitsFit(recommended, relevant, k)
  {
    if HitsFit(recommended, relevant, k) {
      forall d: Discount | IsDiscount(d)
        ensures Ndcg(d, recommended, relevant, k) <= 1.0
      {
        NdcgWithinUnit(d, recommended, relevant, k);
      }
    } else {
      var c := |relevant| as real + 1.0;
      FlatIsDiscount(c);
      TooManyHits(Flat(c), recommended, relevant, k);
    }
  }

  // ----- when the bound is reached, and what raises the metric

  lemma QuotientWithinUnit(a: real, b: real)
    requires 0.0 <= a <= b && b > 0.0
    ensures 0.0 <= a / b <= 1.0
    ensures a / b == 1.0 <==> a == b
  {
  }

  lemma NdcgIsOneExactlyWhenIdeal(d: Discount, recommended: seq<int>, relevant: set<int>, k: int)
    requires IsDiscount(d) && HitsFit(recommended, relevant, k)
    requires relevant != {} && k > 0
    ensures
      var m := IdealHits(relevant, k);
      Ndcg(d, recommended, relevant, k) == 1.0 <==>
      m <= |recommended| && forall i :: 0 <= i < m ==> recommended[i] in relevant
  {
    var m := IdealHits(relevant, k);
    var top := Top(recommended, k);
    HitsAtMostLength(top, relevant);
    GainBelowIdeal(d, top, relevant);
    var h := Hits(top, relevant);
    IdealGainGrows(d, h, m);
    IdealGainGrows(d, 0, m);
    QuotientWithinUnit(Gain(d, top, relevant), IdealGain(d, m));
    assert Ndcg(d, recommended, relevant, k) == 1.0 <==> h == m && HitsFirst(top, relevant);
    if m <= |recommended| && forall i :: 0 <= i < m ==> recommended[i] in relevant {
      AllHitsCounted(top, relevant, m);
    }
  }

  ghost function SwapUp(s: seq<int>, i: nat): seq<int>
    requires i + 1 < |s|
  {
    s[i := s[i + 1]][i + 1 := s[i]]
  }

  lemma {:induction false} SwapUpGain(d: Discount, top: seq<int>, relevant: set<int>, i: nat)
    requires i + 1 < |top| && top[i] !in relevant && top[i + 1] in relevant
    ensures Gain(d, SwapUp(top, i), relevant) == Gain(d, top, relevant) + d(i) - d(i + 1)
  {
    var n := |top| - 1;
    var swapped := SwapUp(top, i);
    if i + 1 < n {
      SwapUpGain(d, top[..n], relevant, i);
      assert SwapUp(top[..n], i) == swapped[..n];
    } else {
      assert swapped[..n][..i] == top[..n][..i];
      assert Gain(d, top[..n], relevant) == Gain(d, top[..n][..i], relevant);
      assert Gain(d, swapped[..n], relevant) == Gain(d, swapped[..n][..i], relevant) + d(i);
    }
  }

  lemma PromotionRaisesNdcg(d: Discount, recommended: seq<int>, relevant: set<int>, k: int, i: nat)
    requires IsDiscount(d)
    requires i + 1 < |recommended| && i + 1 < k
    requires recommended[i] !in relevant && recommended[i + 1] in relevant
    ensures Ndcg(d, SwapUp(recommended, i), relevant, k) > Ndcg(d, recommended, relevant, k)
  {
    var top := Top(recommended, k);
    var m := IdealHits(relevant, k);
    assert Top(SwapUp(recommended, i), k) == SwapUp(top, i);
    SwapUpGain(d, top, relevant, i);
    assert m >= 1 by {
      SubsetSize({recommended[i + 1]}, relevant);
    }
    IdealGainGrows(d, 0, m);
    QuotientGrows(Gain(d, top, relevant), Gain(d, SwapUp(top, i), relevant), IdealGain(d, m));
  }

  lemma QuotientGrows(a: real, b: real, c: real)
    requires a < b && c > 0.0
    ensures a / c < b / c
  {
    assert b / c - a / c == (b - a) / c;
  }

  // The smallest list that breaks it, for every discount: one relevant place listed twice is counted twice.
  lemma RepeatsBreakTheBound(d: Discount)
    requires IsDiscount(d)
    ensures Ndcg(d, [7, 7], {7}, 2) > 1.0
  {
    var top := [7, 7];
    assert top[..1] == [7] && top[..1][..0] == [];
    assert Gain(d, [7], {7}) == d(0);
    assert Gain(d, top, {7}) == d(0) + d(1);
    assert IdealHits({7}, 2) == 1;
    assert IdealGain(d, 1) == IdealGain(d, 0) + d(0);
    assert Top(top, 2) == top;
    QuotientGrows(d(0), d(0) + d(1), d(0));
    assert d(0) / d(0) == 1.0;
    assert IdealGain(d, 1) == d(0);
    assert 7 in {7};
    assert Ndcg(d, top, {7}, 2) == Gain(d, top, {7}) / IdealGain(d, 1);
  }

  lemma RecallIsOneExactlyWhenCovered(recommended: seq<int>, relevant: set<int>, k: int)
    requires relevant != {}
    ensures 0.0 <= Recall(recommended, relevant, k) <= 1.0
    ensures Recall(recommended, relevant, k) == 1.0 <==> forall p :: p in relevant ==> p in Top(recommended, k)
  {
    var hits := Elements(Top(recommended, k)) * relevant;
    SubsetSize(hits, relevant);
    QuotientWithinUnit(|hits| as real, |relevant| as real);
    if forall p :: p in relevant ==> p in Top(recommended, k) {
      assert hits == relevant;
    }
  }

  // The relevant items among the first k.
  ghost function Found(recommended: seq<int>, relevant: set<int>, k: nat): set<int> {
    set p | p in relevant && Among(recommended, k, p)
  }

  ghost predicate Among(recommended: seq<int>, k: nat, p: int) {
    exists i :: 0 <= i < k && i < |recommended| && recommended[i] == p
  }

  /** Recall is the share of the relevant items found among the first k, each counted once, and one more found raises it
  by one share. */
  lemma RecallIsShareFound(recommended: seq<int>, relevant: set<int>, k: nat)
    requires relevant != {}
    ensures Recall(recommended, relevant, k) == |Found(recommended, relevant, k)| as real / |relevant| as real
    ensures Found(recommended, relevant, k) <= relevant
    ensures k < |recommended| && recommended[k] in relevant && !Among(recommended, k, recommended[k]) ==>
              Recall(recommended, relevant, k + 1) == Recall(recommended, relevant, k) + 1.0 / |relevant| as real
  {
    TopIsFound(recommended, relevant, k);
    TopIsFound(recommended, relevant, k + 1);
    var found, more := Found(recommended, relevant, k), Found(recommended, relevant, k + 1);
    if k < |recommended| && recommended[k] in relevant && !Among(recommended, k, recommended[k]) {
      forall p
        ensures p in more <==> p in found || p == recommended[k]
      {
        AmongOneMore(recommended, k, p);
      }
      assert more == found + {recommended[k]};
      OneShareMore(|found| as real, |relevant| as real);
    }
  }

  lemma AmongOneMore(recommended: seq<int>, k: nat, p: int)
    requires k < |recommended|
    ensures Among(recommended, k + 1, p) <==> Among(recommended, k, p) || recommended[k] == p
  {
    if recommended[k] == p {
      assert recommended[k] == p && 0 <= k < k + 1;
    }
  }

  lemma TopIsFound(recommended: seq<int>, relevant: set<int>, k: nat)
    ensures Elements(Top(recommended, k)) * relevant == Found(recommended, relevant, k)
  {
    var top := Top(recommended, k);
    forall p
      ensures p in top <==> Among(recommended, k, p)
    {
      if p in top {
        var i :| 0 <= i < |top| && top[i] == p;
        assert recommended[i] == p;
      }
      if i :| 0 <= i < k && i < |recommended| && recommended[i] == p {
        assert top[i] == p;
      }
    }
  }

  lemma OneShareMore(n: real, whole: real)
    requires whole > 0.0
    ensures (n + 1.0) / whole == n / whole + 1.0 / whole
  {
  }
}
