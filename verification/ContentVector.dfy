/** The behaviour vector of a user: incremental renormalised updates and the decayed batch computation.

Arithmetic is over the reals. Square roots and exponentials enter as functions with the laws used:
`IsRoot` and `IsExp`. Vectors have any fixed dimension (the system uses 1024).
 */
module ContentVector {
  import opened Common

  type Vector = seq<real>

  const EPSILON: real := 0.00000001

  type RealFunction = real -> real

  ghost predicate IsRoot(root: RealFunction) {
    forall x :: x >= 0.0 ==> root(x) >= 0.0 && root(x) * root(x) == x
  }

  ghost predicate IsExp(exp: RealFunction) {
    && (forall a, b :: TurnsSumToProduct(exp, a, b))
    && forall a :: exp(a) > 0.0
  }

  ghost predicate Rises(f: RealFunction) {
    forall a, b :: a < b ==> f(a) < f(b)
  }

  ghost predicate TurnsSumToProduct(exp: RealFunction, a: real, b: real) {
    exp(a + b) == exp(a) * exp(b)
  }

  function Zeros(n: nat): Vector {
    seq(n, i => 0.0)
  }

  // v + w * p, componentwise.
  function AddScaled(v: Vector, w: real, p: Vector): (r: Vector)
    requires |v| == |p|
  {
    seq(|v|, i requires 0 <= i < |v| => v[i] + w * p[i])
  }

  function DivideBy(v: Vector, n: real): Vector
    requires n != 0.0
  {
    seq(|v|, i requires 0 <= i < |v| => v[i] / n)
  }

  function SumOfSquares(v: Vector): real {
    if v == [] then 0.0 else v[0] * v[0] + SumOfSquares(v[1..])
  }

  function Norm(root: RealFunction, v: Vector): real {
    root(SumOfSquares(v))
  }

  // None when the norm is too small to divide by.
  function Normalise(root: RealFunction, total: Vector): Option<Vector> {
    var norm := Norm(root, total);
    if norm < EPSILON then None else Some(DivideBy(total, norm))
  }

  function Sum(s: seq<real>): real {
    if s == [] then 0.0 else Sum(s[..|s| - 1]) + s[|s| - 1]
  }

  lemma Distribute(c: real, a: real, b: real)
    ensures c * (a + b) == c * a + c * b
  {
  }

  lemma {:induction false} SumScales(s: seq<real>, t: seq<real>, c: real)
    requires |s| == |t| && forall i :: 0 <= i < |s| ==> t[i] == c * s[i]
    ensures Sum(t) == c * Sum(s)
  {
    if s == [] {
      assert c * 0.0 == 0.0;
    } else {
      var n := |s| - 1;
      SumScales(s[..n], t[..n], c);
      Distribute(c, Sum(s[..n]), s[n]);
    }
  }

  lemma {:induction false} SquaresNonNegative(v: Vector)
    ensures SumOfSquares(v) >= 0.0
  {
    if v != [] {
      SquaresNonNegative(v[1..]);
    }
  }

  ghost predicate IsScaled(v: Vector, w: Vector, c: real) {
    |v| == |w| && forall i :: 0 <= i < |v| ==> w[i] == c * v[i]
  }

  lemma {:induction false} SquaresScale(v: Vector, w: Vector, c: real)
    requires IsScaled(v, w, c)
    ensures SumOfSquares(w) == c * c * SumOfSquares(v)
  {
    hide IsScaled;
    SameSize(v, w, c);
    if v == [] {
      assert c * c * 0.0 == 0.0;
    } else {
      HeadScales(v, w, c);
      SquaresScale(v[1..], w[1..], c);
      NextSquareScales(c, v[0], w[0], SumOfSquares(v[1..]), SumOfSquares(w[1..]));
    }
  }

  lemma SameSize(v: Vector, w: Vector, c: real)
    requires IsScaled(v, w, c)
    ensures |v| == |w|
  {
  }

  lemma HeadScales(v: Vector, w: Vector, c: real)
    requires IsScaled(v, w, c) && v != []
    ensures w[0] == c * v[0] && IsScaled(v[1..], w[1..], c)
  {
  }

  lemma NextSquareScales(c: real, a: real, b: real, rest: real, scaled: real)
    requires b == c * a && scaled == c * c * rest
    ensures b * b + scaled == c * c * (a * a + rest)
  {
    SquareOfProduct(c, a);
    Distribute(c * c, a * a, rest);
  }

  lemma SquareOfProduct(c: real, a: real)
    ensures (c * a) * (c * a) == c * c * (a * a)
  {
  }

  lemma SquareOfInverse(n: real)
    requires n != 0.0
    ensures (1.0 / n) * (1.0 / n) * (n * n) == 1.0
  {
    var i := 1.0 / n;
    assert i * n == 1.0;
    SquareOfProduct(i, n);
  }

  lemma NormaliseIsUnit(root: RealFunction, total: Vector)
    requires IsRoot(root) && Normalise(root, total).Some?
    ensures SumOfSquares(Normalise(root, total).value) == 1.0
    ensures |Normalise(root, total).value| == |total|
  {
    hide Norm, SumOfSquares, IsRoot;
    var n, unit := Norm(root, total), Normalise(root, total).value;
    RootSquares(root, total);
    forall i | 0 <= i < |total|
      ensures unit[i] == (1.0 / n) * total[i]
    {
      AsProduct(total[i], n);
    }
    SquaresScale(total, unit, 1.0 / n);
    SquareOfInverse(n);
  }

  // ----- the incremental path

  datatype Action = Action(weight: real, vector: Vector)

  function Base(current: Option<Vector>, n: nat): Vector {
    if current.Some? then current.value else Zeros(n)
  }

  function ApplyIncremental(root: RealFunction, current: Option<Vector>, action: Action): Option<Vector>
    requires current.Some? ==> |current.value| == |action.vector|
  {
    Normalise(root, AddScaled(Base(current, |action.vector|), action.weight, action.vector))
  }

  /** One update: the weighted vector is added to the current one, or to nothing, and the sum is divided by its norm, or
  given up when that is below 1e-8. */
  lemma UpdateIsNormalisedSum(root: RealFunction, current: Option<Vector>, action: Action, total: Vector)
    requires current.Some? ==> |current.value| == |action.vector|
    requires |total| == |action.vector|
    requires forall i :: 0 <= i < |total| ==>
               total[i] == (if current.Some? then current.value[i] else 0.0) + action.weight * action.vector[i]
    ensures
      var r, norm := ApplyIncremental(root, current, action), root(SumOfSquares(total));
      && (r == None <==> norm < 0.00000001)
      && (r.Some? ==> |r.value| == |total| && forall i :: 0 <= i < |total| ==> r.value[i] == total[i] / norm)
  {
    hide SumOfSquares;
    var base := Base(current, |action.vector|);
    var sum := AddScaled(base, action.weight, action.vector);
    forall i | 0 <= i < |total|
      ensures sum[i] == total[i]
    {
      assert base[i] == if current.Some? then current.value[i] else 0.0;
    }
    assert sum == total;
  }

  ghost predicate OfDimension(actions: seq<Action>, n: nat) {
    forall i :: 0 <= i < |actions| ==> |actions[i].vector| == n
  }

  // The vector after a history of actions, from no vector at all.
  function After(root: RealFunction, actions: seq<Action>, n: nat): (r: Option<Vector>)
    requires OfDimension(actions, n)
    ensures r.Some? ==> |r.value| == n
  {
    if actions == [] then None
    else ApplyIncremental(root, After(root, actions[..|actions| - 1], n), actions[|actions| - 1])
  }

  // The actions since the vector was last absent.
  function SinceReset(root: RealFunction, actions: seq<Action>, n: nat): (r: seq<Action>)
    requires OfDimension(actions, n)
  {
    if actions == [] || After(root, actions, n).None? then []
    else SinceReset(root, actions[..|actions| - 1], n) + [actions[|actions| - 1]]
  }

  // The norms divided out at each of those actions.
  function NormsSinceReset(root: RealFunction, actions: seq<Action>, n: nat): (r: seq<real>)
    requires OfDimension(actions, n)
    ensures |r| == |SinceReset(root, actions, n)|
    ensures AllLarge(r)
  {
    if actions == [] || After(root, actions, n).None? then []
    else
      var init, last := actions[..|actions| - 1], actions[|actions| - 1];
      NormsSinceReset(root, init, n) +
      [Norm(root, AddScaled(Base(After(root, init, n), n), last.weight, last.vector))]
  }

  // norms[i] * ... * norms[k].
  function ProductFrom(norms: seq<real>, i: nat): real
    requires i <= |norms|
    decreases |norms| - i
  {
    if i == |norms| then 1.0 else norms[i] * ProductFrom(norms, i + 1)
  }

  // w_i * p_i[x] / (norms[i] * ... * norms[k]).
  function Term(actions: seq<Action>, norms: seq<real>, i: nat, x: nat): real
    requires i < |norms| == |actions| && OfDimensionAt(actions, x) && AllLarge(norms)
  {
    ProductPositive(norms, i);
    actions[i].weight * actions[i].vector[x] / ProductFrom(norms, i)
  }

  function Terms(actions: seq<Action>, norms: seq<real>, x: nat): seq<real>
    requires |norms| == |actions| && OfDimensionAt(actions, x) && AllLarge(norms)
  {
    seq(|actions|, i requires 0 <= i < |actions| => Term(actions, norms, i, x))
  }

  // The actions' contributions to component x, each diluted by the norms from its own step on.
  function Diluted(actions: seq<Action>, norms: seq<real>, x: nat): real
    requires |norms| == |actions| && OfDimensionAt(actions, x) && AllLarge(norms)
  {
    Sum(Terms(actions, norms, x))
  }

  ghost predicate AllLarge(norms: seq<real>) {
    forall i :: 0 <= i < |norms| ==> norms[i] >= EPSILON
  }

  ghost predicate OfDimensionAt(actions: seq<Action>, x: nat) {
    forall i :: 0 <= i < |actions| ==> x < |actions[i].vector|
  }

  lemma {:induction false} ProductPositive(norms: seq<real>, i: nat)
    requires i <= |norms| && AllLarge(norms)
    ensures ProductFrom(norms, i) > 0.0
    decreases |norms| - i
  {
    if i < |norms| {
      ProductPositive(norms, i + 1);
    }
  }

  lemma {:induction false} ProductAppend(norms: seq<real>, last: real, i: nat)
    requires i <= |norms|
    ensures ProductFrom(norms + [last], i) == ProductFrom(norms, i) * last
    decreases |norms| - i
  {
    var more := norms + [last];
    if i < |norms| {
      ProductAppend(norms, last, i + 1);
      Associative(norms[i], ProductFrom(norms, i + 1), last);
    } else {
      assert ProductFrom(more, i + 1) == 1.0;
    }
  }

  lemma Associative(a: real, b: real, c: real)
    ensures a * (b * c) == (a * b) * c
  {
  }

  lemma QuotientOfQuotient(a: real, b: real, c: real)
    requires b != 0.0 && c != 0.0
    ensures b * c != 0.0 && a / (b * c) == (a / b) / c
  {
    var q := a / b;
    assert q * b == a;
    assert (q / c) * c == q;
    assert (q / c) * (b * c) == a;
  }

  lemma AsProduct(a: real, n: real)
    requires n != 0.0
    ensures a / n == (1.0 / n) * a
  {
  }

  // One more action divides every earlier term by its norm.
  lemma TermAppend(actions: seq<Action>, norms: seq<real>, action: Action, norm: real, i: nat, x: nat)
    requires i < |norms| == |actions| && norm >= EPSILON && AllLarge(norms)
    requires OfDimensionAt(actions + [action], x) && OfDimensionAt(actions, x)
    ensures AllLarge(norms + [norm])
    ensures Term(actions + [action], norms + [norm], i, x) == (1.0 / norm) * Term(actions, norms, i, x)
  {
    hide ProductFrom;
    ProductAppend(norms, norm, i);
    ProductPositive(norms, i);
    assert (actions + [action])[i] == actions[i];
    var share := actions[i].weight * actions[i].vector[x];
    QuotientOfQuotient(share, ProductFrom(norms, i), norm);
    AsProduct(share / ProductFrom(norms, i), norm);
  }

  lemma {:induction false} SinceResetDimension(root: RealFunction, actions: seq<Action>, n: nat, x: nat)
    requires OfDimension(actions, n) && x < n
    ensures OfDimensionAt(SinceReset(root, actions, n), x)
  {
    if actions != [] && After(root, actions, n).Some? {
      SinceResetDimension(root, actions[..|actions| - 1], n, x);
    }
  }

  lemma LastTerm(actions: seq<Action>, norms: seq<real>, action: Action, norm: real, x: nat)
    requires |norms| == |actions| && norm >= EPSILON && AllLarge(norms)
    requires OfDimensionAt(actions + [action], x)
    ensures AllLarge(norms + [norm]) && x < |action.vector|
    ensures Term(actions + [action], norms + [norm], |actions|, x) == (1.0 / norm) * (action.weight * action.vector[x])
  {
    var k, more := |actions|, norms + [norm];
    assert (actions + [action])[k] == action && more[k] == norm;
    assert ProductFrom(more, k + 1) == 1.0;
    assert ProductFrom(more, k) == norm * 1.0;
    AsProduct(action.weight * action.vector[x], norm);
  }

  // Adding an action to a diluted sum and dividing by the norm gives the diluted sum with the action.
  lemma DilutedStep(actions: seq<Action>, norms: seq<real>, action: Action, norm: real, x: nat)
    requires |norms| == |actions| && norm >= EPSILON && AllLarge(norms)
    requires OfDimensionAt(actions + [action], x) && OfDimensionAt(actions, x)
    ensures AllLarge(norms + [norm]) && x < |action.vector|
    ensures Diluted(actions + [action], norms + [norm], x) ==
            (1.0 / norm) * (Diluted(actions, norms, x) + action.weight * action.vector[x])
  {
    hide Term;
    LastTerm(actions, norms, action, norm, x);
    var k := |actions|;
    var old', new' := Terms(actions, norms, x), Terms(actions + [action], norms + [norm], x);
    forall i | 0 <= i < k
      ensures new'[..k][i] == (1.0 / norm) * old'[i]
    {
      TermAppend(actions, norms, action, norm, i, x);
    }
    SumScales(old', new'[..k], 1.0 / norm);
    Distribute(1.0 / norm, Sum(old'), action.weight * action.vector[x]);
  }

  lemma UnitComponent(root: RealFunction, total: Vector, x: nat)
    requires x < |total| && Normalise(root, total).Some?
    ensures Norm(root, total) >= EPSILON
    ensures Normalise(root, total).value[x] == (1.0 / Norm(root, total)) * total[x]
  {
    hide Norm;
    AsProduct(total[x], Norm(root, total));
  }

  // One action carries the closed form of the vector it starts from to that of the vector it leaves.
  lemma ClosedFormStep(root: RealFunction, base: Vector, actions: seq<Action>, norms: seq<real>, last: Action, x: nat)
    requires |norms| == |actions| && AllLarge(norms)
    requires OfDimensionAt(actions + [last], x) && OfDimensionAt(actions, x)
    requires |base| == |last.vector| && x < |base| && base[x] == Diluted(actions, norms, x)
    requires Normalise(root, AddScaled(base, last.weight, last.vector)).Some?
    ensures
      var total := AddScaled(base, last.weight, last.vector);
      var more := norms + [Norm(root, total)];
      AllLarge(more) && Normalise(root, total).value[x] == Diluted(actions + [last], more, x)
  {
    hide Normalise, Norm, Diluted, AllLarge, OfDimensionAt;
    var total := AddScaled(base, last.weight, last.vector);
    assert total[x] == base[x] + last.weight * last.vector[x];
    UnitComponent(root, total, x);
    DilutedStep(actions, norms, last, Norm(root, total), x);
  }

  // Whatever the history, a vector present is the sum of the actions since the last reset, each weight
  // divided by all norms divided out from its own step on.
  lemma {:induction false} IncrementalClosedForm(root: RealFunction, actions: seq<Action>, n: nat, x: nat)
    requires OfDimension(actions, n) && x < n && After(root, actions, n).Some?
    ensures OfDimensionAt(SinceReset(root, actions, n), x)
    ensures
      var since, norms := SinceReset(root, actions, n), NormsSinceReset(root, actions, n);
      since != [] && After(root, actions, n).value[x] == Diluted(since, norms, x)
  {
    var init, last := actions[..|actions| - 1], actions[|actions| - 1];
    SinceResetDimension(root, init, n, x);
    SinceResetDimension(root, actions, n, x);
    if After(root, init, n).Some? {
      IncrementalClosedForm(root, init, n, x);
    }
    var base, since, norms := Base(After(root, init, n), n), SinceReset(root, init, n), NormsSinceReset(root, init, n);
    ClosedFormStep(root, base, since, norms, last, x);
  }

  // And it is a unit vector.
  lemma IncrementalIsUnit(root: RealFunction, actions: seq<Action>, n: nat)
    requires IsRoot(root) && OfDimension(actions, n) && After(root, actions, n).Some?
    ensures SumOfSquares(After(root, actions, n).value) == 1.0
  {
    var init, last := actions[..|actions| - 1], actions[|actions| - 1];
    NormaliseIsUnit(root, AddScaled(Base(After(root, init, n), n), last.weight, last.vector));
  }

  // Later renormalisations never flip the sign of an earlier action's weight.
  lemma CoefficientKeepsSign(actions: seq<Action>, norms: seq<real>, i: nat)
    requires |norms| == |actions| && i < |actions| && AllLarge(norms)
    ensures
      var p := ProductFrom(norms, i);
      && p > 0.0
      && (actions[i].weight / p > 0.0 <==> actions[i].weight > 0.0)
      && (actions[i].weight / p < 0.0 <==> actions[i].weight < 0.0)
  {
    ProductPositive(norms, i);
    var p := ProductFrom(norms, i);
    var q := actions[i].weight / p;
    assert q * p == actions[i].weight;
  }

  // ----- the batch path

  // `vector` is absent for a place that has no embedding.
  datatype Log = Log(weight: real, createdAt: real, vector: Option<Vector>)

  datatype Decay = Decay(exp: RealFunction, lambda: real)

  function Days(start: real, end: real): real {
    (end - start) / 86400.0
  }

  // exp(-lambda * days), days since the action, never negative.
  function DecayOf(d: Decay, createdAt: real, now: real): real {
    d.exp(Exponent(d, if Days(createdAt, now) > 0.0 then Days(createdAt, now) else 0.0))
  }

  function Exponent(d: Decay, days: real): real {
    -d.lambda * days
  }

  function WeightAt(log: Log, d: Option<Decay>, now: real): real {
    if d.Some? then log.weight * DecayOf(d.value, log.createdAt, now) else log.weight
  }

  ghost predicate LogsOfDimension(logs: seq<Log>, n: nat) {
    forall i :: 0 <= i < |logs| && logs[i].vector.Some? ==> |logs[i].vector.value| == n
  }

  function Total(logs: seq<Log>, d: Option<Decay>, now: real, n: nat): (r: Vector)
    requires LogsOfDimension(logs, n)
    ensures |r| == n
  {
    if logs == [] then Zeros(n)
    else
      var before, last := Total(logs[..|logs| - 1], d, now, n), logs[|logs| - 1];
      if last.vector.None? then before else AddScaled(before, WeightAt(last, d, now), last.vector.value)
  }

  function BatchVector(root: RealFunction, logs: seq<Log>, d: Option<Decay>, now: real, n: nat): Option<Vector>
    requires LogsOfDimension(logs, n)
  {
    Normalise(root, Total(logs, d, now, n))
  }

  lemma TotalStep(logs: seq<Log>, d: Option<Decay>, now: real, n: nat, i: nat)
    requires i < |logs| && LogsOfDimension(logs, n)
    ensures LogsOfDimension(logs[..i], n) && LogsOfDimension(logs[..i + 1], n)
    ensures
      var before, last := Total(logs[..i], d, now, n), logs[i];
      Total(logs[..i + 1], d, now, n) ==
      if last.vector.None? then before else AddScaled(before, WeightAt(last, d, now), last.vector.value)
  {
    var prefix := logs[..i + 1];
    assert prefix[..|prefix| - 1] == logs[..i];
  }

  lemma TotalOfNone(d: Option<Decay>, now: real, n: nat)
    ensures LogsOfDimension([], n) && Total([], d, now, n) == Zeros(n)
  {
  }

  method ComputeUserContentVector(root: RealFunction, logs: seq<Log>, d: Option<Decay>, now: real, n: nat)
    returns (vector: Option<Vector>, used: nat, skipped: nat)
    requires LogsOfDimension(logs, n)
    ensures vector == BatchVector(root, logs, d, now, n)
    ensures used + skipped == |logs|
    ensures used == 0 ==> forall i :: 0 <= i < |logs| ==> logs[i].vector.None?
  {
    hide Total, AddScaled, DecayOf, Normalise, Norm;
    var total := Zeros(n);
    used, skipped := 0, 0;
    TotalOfNone(d, now, n);
    assert logs[..0] == [];
    for i := 0 to |logs|
      invariant LogsOfDimension(logs[..i], n)
      invariant total == Total(logs[..i], d, now, n)
      invariant used + skipped == i
      invariant used == 0 ==> forall j :: 0 <= j < i ==> logs[j].vector.None?
    {
      TotalStep(logs, d, now, n, i);
      if logs[i].vector.None? {
        skipped := skipped + 1;
      } else {
        var weight := logs[i].weight;
        if d.Some? {
          weight := weight * DecayOf(d.value, logs[i].createdAt, now);
        }
        assert weight == WeightAt(logs[i], d, now);
        total := AddScaled(total, weight, logs[i].vector.value);
        used := used + 1;
      }
    }
    assert logs[..|logs|] == logs;
    vector := Normalise(root, total);
  }

  // ----- order independence

  // Contribution of a log to component x.
  function Share(log: Log, d: Option<Decay>, now: real, x: nat): real {
    if log.vector.Some? && x < |log.vector.value| then WeightAt(log, d, now) * log.vector.value[x] else 0.0
  }

  // Sum of f over the logs.
  function SumOf(f: Log -> real, logs: seq<Log>): real {
    if logs == [] then 0.0 else SumOf(f, logs[..|logs| - 1]) + f(logs[|logs| - 1])
  }

  function ShareAt(d: Option<Decay>, now: real, x: nat): Log -> real {
    log => Share(log, d, now, x)
  }

  lemma {:induction false} TotalIsShares(logs: seq<Log>, d: Option<Decay>, now: real, n: nat, x: nat)
    requires LogsOfDimension(logs, n) && x < n
    ensures Total(logs, d, now, n)[x] == SumOf(ShareAt(d, now, x), logs)
  {
    hide WeightAt;
    if logs != [] {
      TotalIsShares(logs[..|logs| - 1], d, now, n, x);
      OneShare(logs[|logs| - 1], d, now, n, x, Total(logs[..|logs| - 1], d, now, n));
    }
  }

  lemma OneShare(log: Log, d: Option<Decay>, now: real, n: nat, x: nat, before: Vector)
    requires (log.vector.Some? ==> |log.vector.value| == n) && |before| == n && x < n
    ensures ShareAt(d, now, x)(log) == if log.vector.None? then 0.0 else WeightAt(log, d, now) * log.vector.value[x]
    ensures log.vector.Some? ==>
      AddScaled(before, WeightAt(log, d, now), log.vector.value)[x] == before[x] + ShareAt(d, now, x)(log)
  {
    hide WeightAt;
  }

  lemma {:induction false} SumWithout(f: Log -> real, logs: seq<Log>, k: nat)
    requires k < |logs|
    ensures SumOf(f, logs) == SumOf(f, logs[..k] + logs[k + 1..]) + f(logs[k])
  {
    var n := |logs| - 1;
    var rest := logs[..k] + logs[k + 1..];
    if k == n {
      assert rest == logs[..n];
    } else {
      SumWithout(f, logs[..n], k);
      assert rest[..n - 1] == logs[..n][..k] + logs[..n][k + 1..];
      assert rest[n - 1] == logs[n];
    }
  }

  lemma RemoveAt<T>(s: seq<T>, k: nat)
    requires k < |s|
    ensures multiset(s[..k] + s[k + 1..]) == multiset(s) - multiset{s[k]}
  {
    assert s == s[..k] + [s[k]] + s[k + 1..];
  }

  lemma SameBagHasLast<T>(a: seq<T>, b: seq<T>) returns (k: nat)
    requires a != [] && multiset(a) == multiset(b)
    ensures k < |b| && b[k] == a[|a| - 1]
    ensures multiset(a[..|a| - 1]) == multiset(b[..k] + b[k + 1..])
  {
    var init, last := a[..|a| - 1], a[|a| - 1];
    assert a == init + [last];
    assert last in multiset(b);
    k :| 0 <= k < |b| && b[k] == last;
    RemoveAt(b, k);
    assert multiset(init) == multiset(a) - multiset{last};
  }

  lemma {:induction false} SumPermutes(f: Log -> real, a: seq<Log>, b: seq<Log>)
    requires multiset(a) == multiset(b)
    ensures SumOf(f, a) == SumOf(f, b)
  {
    if a == [] {
      assert |b| == |multiset(b)|;
    } else {
      var k := SameBagHasLast(a, b);
      SumWithout(f, b, k);
      SumPermutes(f, a[..|a| - 1], b[..k] + b[k + 1..]);
    }
  }

  lemma BatchIgnoresOrder(root: RealFunction, a: seq<Log>, b: seq<Log>, d: Option<Decay>, now: real, n: nat)
    requires LogsOfDimension(a, n) && LogsOfDimension(b, n) && multiset(a) == multiset(b)
    ensures BatchVector(root, a, d, now, n) == BatchVector(root, b, d, now, n)
  {
    var s, t := Total(a, d, now, n), Total(b, d, now, n);
    forall x | 0 <= x < n
      ensures s[x] == t[x]
    {
      TotalIsShares(a, d, now, n, x);
      TotalIsShares(b, d, now, n, x);
      SumPermutes(ShareAt(d, now, x), a, b);
    }
    assert s == t;
  }

  // ----- advancing the clock

  // The factor every decay shrinks by between the two times.
  function Fade(d: Decay, now: real, later: real): real {
    d.exp(Exponent(d, Days(now, later)))
  }

  lemma FadePositive(d: Decay, now: real, later: real)
    requires IsExp(d.exp)
    ensures Fade(d, now, later) > 0.0
  {
  }

  lemma ExpAdds(exp: RealFunction, a: real, b: real)
    requires IsExp(exp)
    ensures exp(a + b) == exp(a) * exp(b)
  {
    assert TurnsSumToProduct(exp, a, b);
  }

  lemma ExponentAdds(d: Decay, a: real, b: real)
    ensures Exponent(d, a + b) == Exponent(d, a) + Exponent(d, b)
  {
  }

  lemma DecayFades(d: Decay, createdAt: real, now: real, later: real)
    requires IsExp(d.exp) && createdAt <= now <= later
    ensures DecayOf(d, createdAt, later) == Fade(d, now, later) * DecayOf(d, createdAt, now)
    ensures Fade(d, now, later) == d.exp(-d.lambda * ((later - now) / 86400.0))
    ensures Rises(d.exp) && d.lambda > 0.0 && now < later ==> 0.0 < Fade(d, now, later) < 1.0
  {
    hide IsExp, Rises;
    ExponentIs(d, now, later);
    if Rises(d.exp) && d.lambda > 0.0 && now < later {
      ExpBelowOne(d, Days(now, later));
    }
    var a, b := Days(now, later), Days(createdAt, now);
    assert Days(createdAt, later) == a + b;
    ExponentAdds(d, a, b);
    ExpAdds(d.exp, Exponent(d, a), Exponent(d, b));
  }

  lemma ExponentIs(d: Decay, start: real, end: real)
    ensures Exponent(d, Days(start, end)) == -d.lambda * ((end - start) / 86400.0)
  {
  }

  lemma SameArgument(f: RealFunction, a: real, b: real)
    requires a == b
    ensures f(a) == f(b)
  {
  }

  lemma OwnSquare(e: real)
    requires e * e == e && e > 0.0
    ensures e == 1.0
  {
    if e < 1.0 {
      PositiveProduct(e, 1.0 - e);
    } else if e > 1.0 {
      PositiveProduct(e, e - 1.0);
    }
  }

  lemma ExpOfNeutral(exp: RealFunction, zero: real)
    requires IsExp(exp) && zero + zero == zero
    ensures exp(zero) == 1.0
  {
    ExpAdds(exp, zero, zero);
    var e := exp(zero);
    assert exp(zero + zero) == e;
    assert exp(zero + zero) == e * e;
    OwnSquare(e);
  }

  lemma ExpOfZero(exp: RealFunction)
    requires IsExp(exp)
    ensures exp(0.0) == 1.0
  {
    ExpOfNeutral(exp, 0.0);
  }

  lemma ExponentFalls(d: Decay, a: real, b: real)
    requires d.lambda > 0.0 && a > b
    ensures Exponent(d, a) < Exponent(d, b) && Exponent(d, 0.0) == 0.0
  {
    PositiveProduct(d.lambda, a - b);
  }

  lemma ExpBelowOne(d: Decay, days: real)
    requires IsExp(d.exp) && Rises(d.exp) && d.lambda > 0.0 && days > 0.0
    ensures 0.0 < d.exp(Exponent(d, days)) < 1.0
  {
    hide Exponent;
    ExponentFalls(d, days, 0.0);
    ExpOfZero(d.exp);
  }

  /** With a positive rate: an action of now or later has its full weight, one of the past less, but some, and of two
  actions the earlier never weighs more and, once it is past, weighs less. */
  lemma OlderWeighsLess(d: Decay, older: real, newer: real, now: real)
    requires IsExp(d.exp) && Rises(d.exp) && d.lambda > 0.0 && older < newer
    ensures older >= now ==> DecayOf(d, older, now) == 1.0 && DecayOf(d, newer, now) == 1.0
    ensures older < now ==> 0.0 < DecayOf(d, older, now) < 1.0
    ensures older < now ==> DecayOf(d, older, now) < DecayOf(d, newer, now)
  {
    hide Exponent;
    ExpOfZero(d.exp);
    ExponentFalls(d, 1.0, 0.0);
    if older < now {
      ExpBelowOne(d, Days(older, now));
      if newer < now {
        ExponentFalls(d, Days(older, now), Days(newer, now));
      }
    }
  }

  // Total weight of a component that only log k has.
  lemma {:induction false} SumOfOne(f: Log -> real, logs: seq<Log>, k: nat)
    requires k < |logs| && forall i :: 0 <= i < |logs| && i != k ==> f(logs[i]) == 0.0
    ensures SumOf(f, logs) == f(logs[k])
  {
    var n := |logs| - 1;
    if k == n {
      SumOfNone(f, logs[..n]);
    } else {
      SumOfOne(f, logs[..n], k);
    }
  }

  lemma {:induction false} SumOfNone(f: Log -> real, logs: seq<Log>)
    requires forall i :: 0 <= i < |logs| ==> f(logs[i]) == 0.0
    ensures SumOf(f, logs) == 0.0
  {
    if logs != [] {
      SumOfNone(f, logs[..|logs| - 1]);
    }
  }

  // Of all logs, only log k has component x.
  ghost predicate OnlyHere(logs: seq<Log>, k: nat, x: nat, n: nat)
    requires LogsOfDimension(logs, n) && x < n && k < |logs|
  {
    && logs[k].vector.Some?
    && forall i :: 0 <= i < |logs| && i != k && logs[i].vector.Some? ==> logs[i].vector.value[x] == 0.0
  }

  lemma OnlyShare(logs: seq<Log>, d: Decay, now: real, n: nat, k: nat, x: nat)
    requires LogsOfDimension(logs, n) && x < n && k < |logs| && OnlyHere(logs, k, x, n) && logs[k].createdAt <= now
    ensures Total(logs, Some(d), now, n)[x] ==
            d.exp(Exponent(d, Days(logs[k].createdAt, now))) * (logs[k].weight * logs[k].vector.value[x])
  {
    hide Total, SumOf, Share;
    var f := ShareAt(Some(d), now, x);
    TotalIsShares(logs, Some(d), now, n, x);
    forall i | 0 <= i < |logs| && i != k
      ensures f(logs[i]) == 0.0
    {
      NoShare(logs[i], Some(d), now, x);
    }
    SumOfOne(f, logs, k);
    PastShare(logs[k], d, now, x);
  }

  lemma NoShare(log: Log, d: Option<Decay>, now: real, x: nat)
    requires log.vector.Some? ==> x < |log.vector.value| && log.vector.value[x] == 0.0
    ensures Share(log, d, now, x) == 0.0
  {
  }

  lemma PastShare(log: Log, d: Decay, now: real, x: nat)
    requires log.vector.Some? && x < |log.vector.value| && log.createdAt <= now
    ensures Share(log, Some(d), now, x) ==
            d.exp(Exponent(d, Days(log.createdAt, now))) * (log.weight * log.vector.value[x])
  {
    hide Exponent;
    var e := DecayOf(d, log.createdAt, now);
    assert e == d.exp(Exponent(d, Days(log.createdAt, now)));
    Rearrange(log.weight, e, 1.0, log.vector.value[x]);
  }

  /** Two past logs, each alone in a component: in the batch vector these components stand in the ratio of the logs'
  strengths, the older one's shrunk by exp(-lambda * days between them). */
  lemma BatchFavoursRecent(root: RealFunction, logs: seq<Log>, d: Decay, now: real, n: nat,
                           i: nat, x: nat, j: nat, y: nat)
    requires IsExp(d.exp) && LogsOfDimension(logs, n) && BatchVector(root, logs, Some(d), now, n).Some?
    requires i < |logs| && x < n && OnlyHere(logs, i, x, n)
    requires j < |logs| && y < n && OnlyHere(logs, j, y, n)
    requires logs[i].createdAt <= logs[j].createdAt <= now
    ensures
      var r := BatchVector(root, logs, Some(d), now, n).value;
      var between := (logs[j].createdAt - logs[i].createdAt) / 86400.0;
      var a, b := logs[i].weight * logs[i].vector.value[x], logs[j].weight * logs[j].vector.value[y];
      r[x] * b == d.exp(-d.lambda * between) * a * r[y]
  {
    hide Total, OnlyHere, LogsOfDimension, Norm, IsExp, Exponent;
    OnlyHas(logs, i, x, n);
    OnlyHas(logs, j, y, n);
    var total := Total(logs, Some(d), now, n);
    OnlyShare(logs, d, now, n, i, x);
    OnlyShare(logs, d, now, n, j, y);
    var s, t := Days(logs[i].createdAt, logs[j].createdAt), Days(logs[j].createdAt, now);
    assert Days(logs[i].createdAt, now) == s + t;
    ExponentIs(d, logs[i].createdAt, logs[j].createdAt);
    ExponentAdds(d, s, t);
    ExpAdds(d.exp, Exponent(d, s), Exponent(d, t));
    UnitComponent(root, total, x);
    UnitComponent(root, total, y);
    var a, b := logs[i].weight * logs[i].vector.value[x], logs[j].weight * logs[j].vector.value[y];
    var u, e, f := 1.0 / Norm(root, total), d.exp(Exponent(d, s)), d.exp(Exponent(d, t));
    SameArgument(d.exp, Exponent(d, s), -d.lambda * ((logs[j].createdAt - logs[i].createdAt) / 86400.0));
    assert total[x] == e * f * a && total[y] == f * b;
    CrossProduct(u, e, f, a, b);
  }

  lemma OnlyHas(logs: seq<Log>, k: nat, x: nat, n: nat)
    requires LogsOfDimension(logs, n) && x < n && k < |logs| && OnlyHere(logs, k, x, n)
    ensures logs[k].vector.Some? && |logs[k].vector.value| == n
  {
  }

  lemma CrossProduct(u: real, e: real, f: real, a: real, b: real)
    ensures (u * (e * f * a)) * b == e * a * (u * (f * b))
  {
    calc {
      (u * (e * f * a)) * b;
      u * e * f * a * b;
      e * a * u * f * b;
      e * a * (u * (f * b));
    }
  }

  lemma ShareFades(log: Log, d: Decay, now: real, later: real, x: nat)
    requires IsExp(d.exp) && log.createdAt <= now <= later
    ensures Share(log, Some(d), later, x) == Fade(d, now, later) * Share(log, Some(d), now, x)
  {
    DecayFades(d, log.createdAt, now, later);
    if log.vector.Some? && x < |log.vector.value| {
      Rearrange(log.weight, Fade(d, now, later), DecayOf(d, log.createdAt, now), log.vector.value[x]);
    }
  }

  lemma {:induction false} SumOfScales(f: Log -> real, g: Log -> real, c: real, logs: seq<Log>)
    requires forall i :: 0 <= i < |logs| ==> g(logs[i]) == c * f(logs[i])
    ensures SumOf(g, logs) == c * SumOf(f, logs)
  {
    if logs == [] {
      assert c * 0.0 == 0.0;
    } else {
      var n := |logs| - 1;
      SumOfScales(f, g, c, logs[..n]);
      Distribute(c, SumOf(f, logs[..n]), f(logs[n]));
    }
  }

  lemma Rearrange(w: real, c: real, e: real, p: real)
    ensures w * (c * e) * p == c * (w * e * p)
  {
    calc {
      w * (c * e) * p;
      (w * c * e) * p;
      (c * (w * e)) * p;
      c * (w * e * p);
    }
  }

  lemma PositiveProduct(a: real, b: real)
    requires a > 0.0 && b > 0.0
    ensures a * b > 0.0
  {
  }

  lemma SquareGrows(a: real, b: real)
    requires 0.0 <= a < b
    ensures a * a < b * b
  {
    PositiveProduct(b - a, b + a);
    assert b * b - a * a == (b - a) * (b + a);
  }

  // A root of the same square is the same root.
  lemma RootUnique(a: real, b: real)
    requires a >= 0.0 && b >= 0.0 && a * a == b * b
    ensures a == b
  {
    if a < b {
      SquareGrows(a, b);
    } else if b < a {
      SquareGrows(b, a);
    }
  }

  lemma RootSquares(root: RealFunction, v: Vector)
    requires IsRoot(root)
    ensures Norm(root, v) >= 0.0 && Norm(root, v) * Norm(root, v) == SumOfSquares(v)
  {
    SquaresNonNegative(v);
  }

  lemma NormScales(root: RealFunction, v: Vector, w: Vector, c: real)
    requires IsRoot(root) && c > 0.0
    requires IsScaled(v, w, c)
    ensures Norm(root, w) == c * Norm(root, v)
  {
    SquaresScale(v, w, c);
    RootSquares(root, v);
    RootSquares(root, w);
    SquareOfProduct(c, Norm(root, v));
    RootUnique(Norm(root, w), c * Norm(root, v));
  }

  lemma ScaledQuotient(a: real, n: real, b: real, m: real, c: real)
    requires c > 0.0 && n > 0.0 && b == c * a && m == c * n
    ensures m > 0.0 && b / m == a / n
  {
    PositiveProduct(c, n);
    QuotientOfQuotient(b, c, n);
    assert b / c == a;
  }

  lemma NormaliseScales(root: RealFunction, v: Vector, w: Vector, c: real)
    requires IsRoot(root) && c > 0.0
    requires IsScaled(v, w, c)
    requires Norm(root, v) >= EPSILON && Norm(root, w) >= EPSILON
    ensures Normalise(root, w) == Normalise(root, v)
  {
    NormScales(root, v, w, c);
    var n, m := Norm(root, v), Norm(root, w);
    forall i | 0 <= i < |v|
      ensures w[i] / m == v[i] / n
    {
      ScaledQuotient(v[i], n, w[i], m, c);
    }
    assert DivideBy(w, m) == DivideBy(v, n);
  }

  lemma TotalFades(logs: seq<Log>, d: Decay, now: real, later: real, n: nat, x: nat)
    requires IsExp(d.exp) && now <= later && LogsOfDimension(logs, n) && x < n
    requires forall i :: 0 <= i < |logs| ==> logs[i].createdAt <= now
    ensures Total(logs, Some(d), later, n)[x] == Fade(d, now, later) * Total(logs, Some(d), now, n)[x]
  {
    hide Total, Fade, Share, SumOf, LogsOfDimension, IsExp;
    var f, g := ShareAt(Some(d), now, x), ShareAt(Some(d), later, x);
    TotalIsShares(logs, Some(d), now, n, x);
    TotalIsShares(logs, Some(d), later, n, x);
    forall i | 0 <= i < |logs|
      ensures g(logs[i]) == Fade(d, now, later) * f(logs[i])
    {
      ShareFades(logs[i], d, now, later, x);
    }
    SumOfScales(f, g, Fade(d, now, later), logs);
  }

  // Scaling a vector changes its normalisation only when the scaled norm becomes too small.
  lemma NormaliseScaled(root: RealFunction, v: Vector, w: Vector, c: real)
    requires IsRoot(root) && c > 0.0
    requires IsScaled(v, w, c)
    ensures
      var faded := c * Norm(root, v);
      && (Norm(root, v) >= EPSILON ==> Normalise(root, w) == if faded >= EPSILON then Normalise(root, v) else None)
      && (faded < EPSILON ==> Normalise(root, w) == None)
  {
    NormScales(root, v, w, c);
    if Norm(root, v) >= EPSILON && Norm(root, w) >= EPSILON {
      NormaliseScales(root, v, w, c);
    }
  }

  // For logs all in the past, the batch vector does not depend on the time of the batch while the norm
  // stays large enough; once the faded norm is too small there is none.
  lemma BatchIgnoresClock(root: RealFunction, logs: seq<Log>, d: Decay, now: real, later: real, n: nat)
    requires IsRoot(root) && IsExp(d.exp) && now <= later && LogsOfDimension(logs, n)
    requires forall i :: 0 <= i < |logs| ==> logs[i].createdAt <= now
    ensures
      var norm := Norm(root, Total(logs, Some(d), now, n));
      var faded := Fade(d, now, later) * norm;
      && (norm >= EPSILON ==>
            BatchVector(root, logs, Some(d), later, n) ==
              if faded >= EPSILON then BatchVector(root, logs, Some(d), now, n) else None)
      && (faded < EPSILON ==> BatchVector(root, logs, Some(d), later, n) == None)
  {
    hide Total, Fade, Normalise, Norm, IsRoot, IsExp;
    FadePositive(d, now, later);
    var v, w, c := Total(logs, Some(d), now, n), Total(logs, Some(d), later, n), Fade(d, now, later);
    forall x | 0 <= x < n
      ensures w[x] == c * v[x]
    {
      TotalFades(logs, d, now, later, n, x);
    }
    NormaliseScaled(root, v, w, c);
  }
}
