/** Reviews and the rating aggregate stored with each place.

Averages are exact rationals rounded to tenths, nearest first; which way a tie goes is left open, as a function
of the sum and the number of ratings.
 */
module Ratings {
  import opened Common

  type Stars = n: int | 1 <= n <= 5 witness 1

  datatype Review = Review(user: int, place: int, rating: Stars, content: string, image: Option<string>,
                           route: Option<int>)

  // The average is stored with one decimal, here in tenths.
  datatype PlaceRow = PlaceRow(avgTenths: int, count: nat)

  datatype Route = Route(owner: int, places: set<int>)

  datatype ActionRow = ActionRow(user: int, place: int, rating: Stars)

  datatype State = State(
    places: map<int, PlaceRow>,
    reviews: map<nat, Review>,
    nextReview: nat,
    routes: map<int, Route>,
    actions: seq<ActionRow>
  )

  datatype ReviewError =
    | PlaceNotFound
    | AlreadyReviewed
    | RouteNotFound
    | RouteNotIncluded
    | ReviewNotFound
    | ForbiddenReviewEdit
    | ForbiddenReviewDelete

  // The fields a request asks to change; a route may be changed to none.
  datatype Changes = Changes(rating: Option<Stars>, content: Option<string>, image: Option<Option<string>>,
                             route: Option<Option<int>>)

  datatype Request =
    | Create(user: int, place: int, rating: Stars, content: string, image: Option<string>, route: Option<int>)
    | Update(user: int, review: nat, changes: Changes)
    | Delete(user: int, review: nat)
    | AdminDelete(review: nat)

  type Ties = (int, int) -> bool

  // ----- the aggregate

  ghost function ReviewsOf(reviews: map<nat, Review>, place: int): set<nat> {
    set id | id in reviews && reviews[id].place == place
  }

  // Number and sum of the ratings of a place, among reviews with ids below `bound`.
  function CountBelow(reviews: map<nat, Review>, place: int, bound: nat): nat {
    if bound == 0 then 0
    else CountBelow(reviews, place, bound - 1) + if Counts(reviews, place, bound - 1) then 1 else 0
  }

  function SumBelow(reviews: map<nat, Review>, place: int, bound: nat): nat {
    if bound == 0 then 0
    else
      var id := bound - 1;
      SumBelow(reviews, place, id) + if Counts(reviews, place, id) then reviews[id].rating else 0
  }

  predicate Counts(reviews: map<nat, Review>, place: int, id: nat) {
    id in reviews && reviews[id].place == place
  }

  // sum / count to the nearest tenth.
  function Tenths(sum: int, count: int, up: bool): int
    requires count > 0
  {
    var q, r := 10 * sum / count, 10 * sum % count;
    if 2 * r < count then q
    else if 2 * r > count then q + 1
    else if up then q + 1 else q
  }

  function Aggregate(ties: Ties, s: State, place: int): PlaceRow {
    var count, sum := CountBelow(s.reviews, place, s.nextReview), SumBelow(s.reviews, place, s.nextReview);
    if count == 0 then PlaceRow(0, 0) else PlaceRow(Tenths(sum, count, ties(sum, count)), count)
  }

  function UpdatePlaceRating(ties: Ties, s: State, place: int): State {
    if place !in s.places then s else s.(places := s.places[place := Aggregate(ties, s, place)])
  }

  // ----- the requests

  predicate HasReview(reviews: map<nat, Review>, user: int, place: int) {
    exists id :: id in reviews && reviews[id].user == user && reviews[id].place == place
  }

  function RouteError(s: State, user: int, place: int, route: Option<int>): Option<ReviewError> {
    if route.None? then None
    else if route.value !in s.routes || s.routes[route.value].owner != user then Some(RouteNotFound)
    else if place !in s.routes[route.value].places then Some(RouteNotIncluded)
    else None
  }

  function Changed(r: Review, c: Changes): Review {
    r.(rating := if c.rating.Some? then c.rating.value else r.rating,
       content := if c.content.Some? then c.content.value else r.content,
       image := if c.image.Some? then c.image.value else r.image,
       route := if c.route.Some? then c.route.value else r.route)
  }

  // The review a request may act on, or the error it gets.
  function Refusal(s: State, q: Request): Option<ReviewError> {
    match q
    case Create(user, place, _, _, _, route) =>
      if place !in s.places then Some(PlaceNotFound)
      else if HasReview(s.reviews, user, place) then Some(AlreadyReviewed)
      else RouteError(s, user, place, route)
    case Update(user, id, changes) =>
      if id !in s.reviews then Some(ReviewNotFound)
      else if s.reviews[id].user != user then Some(ForbiddenReviewEdit)
      else if changes.route.Some? then RouteError(s, user, s.reviews[id].place, changes.route.value)
      else None
    case Delete(user, id) =>
      if id !in s.reviews then Some(ReviewNotFound)
      else if s.reviews[id].user != user then Some(ForbiddenReviewDelete)
      else None
    case AdminDelete(id) => if id !in s.reviews then Some(ReviewNotFound) else None
  }

  // A review of three stars is no action.
  function ActionsOf(review: Review): seq<ActionRow> {
    if review.rating != 3 then [ActionRow(review.user, review.place, review.rating)] else []
  }

  function Added(s: State, review: Review): State {
    s.(reviews := s.reviews[s.nextReview := review],
       nextReview := s.nextReview + 1,
       actions := s.actions + ActionsOf(review))
  }

  // The rows after an accepted request, before the aggregate is brought up to date.
  function Written(s: State, q: Request): State
    requires Refusal(s, q) == None
  {
    match q
    case Create(user, place, rating, content, image, route) =>
      Added(s, Review(user, place, rating, content, image, route))
    case Update(_, id, changes) => s.(reviews := s.reviews[id := Changed(s.reviews[id], changes)])
    case Delete(_, id) => s.(reviews := s.reviews - {id})
    case AdminDelete(id) => s.(reviews := s.reviews - {id})
  }

  function PlaceOf(s: State, q: Request): int
    requires Refusal(s, q) == None
  {
    if q.Create? then q.place else s.reviews[q.review].place
  }

  // A refused request leaves everything as it was.
  function Handle(ties: Ties, s: State, q: Request): (State, Option<ReviewError>) {
    var refusal := Refusal(s, q);
    if refusal.Some? then (s, refusal) else (UpdatePlaceRating(ties, Written(s, q), PlaceOf(s, q)), None)
  }

  function HandleAll(ties: Ties, s: State, qs: seq<Request>): State
    decreases |qs|
  {
    if qs == [] then s else HandleAll(ties, Handle(ties, s, qs[0]).0, qs[1..])
  }

  // ----- consistency

  // `tenths` is within half a tenth of sum / count, and between one and five stars; nothing is 0.0.
  ghost predicate Agrees(row: PlaceRow, sum: int, count: int) {
    && row.count == count
    && (if count == 0 then row.avgTenths == 0
        else -count <= 2 * (row.avgTenths * count - 10 * sum) <= count && 10 <= row.avgTenths <= 50)
  }

  ghost predicate PlaceAgrees(s: State, place: int) {
    place in s.places ==>
      Agrees(s.places[place], SumBelow(s.reviews, place, s.nextReview), |ReviewsOf(s.reviews, place)|)
  }

  ghost predicate OneReviewEach(reviews: map<nat, Review>) {
    forall a, b ::
      (a in reviews && b in reviews && reviews[a].user == reviews[b].user && reviews[a].place == reviews[b].place) ==>
        a == b
  }

  ghost predicate RowsConsistent(s: State) {
    && (forall id :: id in s.reviews ==> id < s.nextReview && s.reviews[id].place in s.places)
    && OneReviewEach(s.reviews)
  }

  ghost predicate Consistent(s: State) {
    RowsConsistent(s) && forall p :: PlaceAgrees(s, p)
  }

  // ----- arithmetic of the average

  lemma Division(n: nat, d: nat)
    requires d > 0
    ensures n == n / d * d + n % d && 0 <= n % d < d
  {
  }

  lemma TenthsNearest(sum: int, count: int, up: bool)
    requires count > 0 && sum >= 0
    ensures -count <= 2 * (Tenths(sum, count, up) * count - 10 * sum) <= count
  {
    var q, r := 10 * sum / count, 10 * sum % count;
    Division(10 * sum, count);
    assert (q + 1) * count == q * count + count;
  }

  lemma TimesMonotone(a: int, b: int, c: nat)
    requires a <= b
    ensures a * c <= b * c
  {
    assert (b - a) * c >= 0;
  }

  // Ratings between one and five stars keep the nearest tenth in that range.
  lemma NearestInRange(t: int, sum: int, count: int)
    requires count > 0 && count <= sum <= 5 * count
    requires -count <= 2 * (t * count - 10 * sum) <= count
    ensures 10 <= t <= 50
  {
    if t <= 9 {
      TimesMonotone(t, 9, count);
    }
    if t >= 51 {
      TimesMonotone(51, t, count);
    }
  }

  lemma {:induction false} RealTimes(a: int, b: nat)
    ensures (a * b) as real == a as real * b as real
  {
    if b > 0 {
      RealTimes(a, b - 1);
      assert a * b == a * (b - 1) + a;
      assert (a * b) as real == (a * (b - 1)) as real + a as real;
      RealStep(a as real, (b - 1) as real);
      assert b as real == (b - 1) as real + 1.0;
    }
  }

  lemma RealStep(a: real, b: real)
    ensures a * (b + 1.0) == a * b + a
  {
  }

  lemma HalfBound(d: real, c: real)
    requires c > 0.0 && -c <= 2.0 * (d * c) <= c
    ensures -0.5 <= d <= 0.5
  {
    if d > 0.5 {
      PositiveTimes(d - 0.5, c);
    } else if d < -0.5 {
      PositiveTimes(-0.5 - d, c);
    }
  }

  lemma PositiveTimes(a: real, c: real)
    requires a > 0.0 && c > 0.0
    ensures a * c > 0.0
  {
  }

  lemma Spread(t: real, m: real, c: real)
    ensures (t - 10.0 * m) * c == t * c - 10.0 * (m * c)
  {
  }

  lemma RealNearest(t: real, m: real, c: real, mc: real, tc: real)
    requires c > 0.0 && tc == t * c && mc == m * c && -c <= 2.0 * (tc - 10.0 * mc) <= c
    ensures -0.5 <= t - 10.0 * m <= 0.5
  {
    var d := t - 10.0 * m;
    Spread(t, m, c);
    assert d * c == tc - 10.0 * mc;
    HalfBound(d, c);
  }

  lemma MeanTimes(s: real, c: real)
    requires c > 0.0
    ensures (s / c) * c == s
  {
  }

  // In the terms of the stored decimal: at most 0.05 away from the mean.
  lemma WithinATwentieth(row: PlaceRow, sum: nat, count: nat)
    requires Agrees(row, sum, count) && count > 0
    ensures
      var mean, stored := sum as real / count as real, row.avgTenths as real / 10.0;
      -0.05 <= stored - mean <= 0.05 && 1.0 <= stored <= 5.0
  {
    var product := row.avgTenths * count;
    RealTimes(row.avgTenths, count);
    MeanTimes(sum as real, count as real);
    RealNearest(row.avgTenths as real, sum as real / count as real, count as real, sum as real, product as real);
  }

  // ----- every request keeps the aggregates

  ghost function ReviewsBelow(reviews: map<nat, Review>, place: int, bound: nat): set<nat> {
    set id | id in reviews && Counts(reviews, place, id) && id < bound
  }

  lemma {:induction false} CountIsSize(reviews: map<nat, Review>, place: int, bound: nat)
    ensures CountBelow(reviews, place, bound) == |ReviewsBelow(reviews, place, bound)|
  {
    if bound > 0 {
      CountIsSize(reviews, place, bound - 1);
      var before, now := ReviewsBelow(reviews, place, bound - 1), ReviewsBelow(reviews, place, bound);
      if Counts(reviews, place, bound - 1) {
        assert now == before + {bound - 1};
      } else {
        assert now == before;
      }
    }
  }

  lemma {:induction false} SumBounds(reviews: map<nat, Review>, place: int, bound: nat)
    ensures
      var count := CountBelow(reviews, place, bound);
      count <= SumBelow(reviews, place, bound) <= 5 * count
  {
    if bound > 0 {
      SumBounds(reviews, place, bound - 1);
    }
  }

  // Reviews of the place are the same in both.
  ghost predicate SameFor(a: map<nat, Review>, b: map<nat, Review>, place: int) {
    forall id: nat ::
      (Counts(a, place, id) <==> Counts(b, place, id)) && (Counts(a, place, id) ==> a[id].rating == b[id].rating)
  }

  lemma {:induction false} SumSame(a: map<nat, Review>, b: map<nat, Review>, place: int, bound: nat)
    requires SameFor(a, b, place)
    ensures SumBelow(a, place, bound) == SumBelow(b, place, bound)
    ensures CountBelow(a, place, bound) == CountBelow(b, place, bound)
  {
    if bound > 0 {
      SumSame(a, b, place, bound - 1);
    }
  }

  lemma {:induction false} SumBeyond(reviews: map<nat, Review>, place: int, bound: nat, more: nat)
    requires bound <= more && forall id: nat :: bound <= id < more ==> !Counts(reviews, place, id)
    ensures SumBelow(reviews, place, more) == SumBelow(reviews, place, bound)
    ensures CountBelow(reviews, place, more) == CountBelow(reviews, place, bound)
  {
    if bound < more {
      SumBeyond(reviews, place, bound, more - 1);
    }
  }

  lemma AllBelow(s: State, place: int)
    requires RowsConsistent(s)
    ensures |ReviewsOf(s.reviews, place)| == CountBelow(s.reviews, place, s.nextReview)
  {
    CountIsSize(s.reviews, place, s.nextReview);
    assert ReviewsOf(s.reviews, place) == ReviewsBelow(s.reviews, place, s.nextReview);
  }

  lemma AggregateAgrees(ties: Ties, s: State, place: int)
    requires RowsConsistent(s)
    ensures PlaceAgrees(UpdatePlaceRating(ties, s, place), place)
  {
    AllBelow(s, place);
    var count, sum := CountBelow(s.reviews, place, s.nextReview), SumBelow(s.reviews, place, s.nextReview);
    SumBounds(s.reviews, place, s.nextReview);
    hide Tenths, ReviewsOf, CountBelow, SumBelow;
    if count > 0 {
      TenthsNearest(sum, count, ties(sum, count));
      NearestInRange(Tenths(sum, count, ties(sum, count)), sum, count);
    }
  }

  lemma WrittenRows(s: State, q: Request)
    requires RowsConsistent(s) && Refusal(s, q) == None
    ensures RowsConsistent(Written(s, q))
    ensures PlaceOf(s, q) in s.places
  {
    hide RouteError, ActionsOf;
    if q.Create? {
      assert forall id :: id in s.reviews && s.reviews[id].place == q.place ==> s.reviews[id].user != q.user;
    }
  }

  // Reviews of the other places stay.
  lemma WrittenElsewhere(s: State, q: Request, place: int)
    requires RowsConsistent(s) && Refusal(s, q) == None && place != PlaceOf(s, q)
    ensures SameFor(s.reviews, Written(s, q).reviews, place)
    ensures ReviewsOf(Written(s, q).reviews, place) == ReviewsOf(s.reviews, place)
    ensures SumBelow(Written(s, q).reviews, place, Written(s, q).nextReview) == SumBelow(s.reviews, place, s.nextReview)
  {
    hide RouteError, Refusal;
    var t := Written(s, q);
    assert SameFor(s.reviews, t.reviews, place);
    SumSame(s.reviews, t.reviews, place, s.nextReview);
    SumBeyond(t.reviews, place, s.nextReview, t.nextReview);
    assert forall id :: id in ReviewsOf(t.reviews, place) <==> id in ReviewsOf(s.reviews, place);
  }

  lemma HandleConsistent(ties: Ties, s: State, q: Request)
    requires Consistent(s)
    ensures Consistent(Handle(ties, s, q).0)
  {
    if Refusal(s, q) == None {
      var t, place := Written(s, q), PlaceOf(s, q);
      WrittenRows(s, q);
      hide Refusal, Written, PlaceOf, Aggregate, OneReviewEach, SumBelow, ReviewsOf, Agrees;
      var u := UpdatePlaceRating(ties, t, place);
      AggregateAgrees(ties, t, place);
      forall p | p != place
        ensures PlaceAgrees(u, p)
      {
        assert PlaceAgrees(s, p);
        WrittenElsewhere(s, q, p);
        WrittenPlaces(s, q);
      }
    }
  }

  lemma WrittenPlaces(s: State, q: Request)
    requires Refusal(s, q) == None
    ensures Written(s, q).places == s.places
  {
  }

  // Over every run of requests, each place's count is its number of reviews, its average within 0.05 of their
  // mean, and each user has at most one review of it.
  lemma {:induction false} HandleAllConsistent(ties: Ties, s: State, qs: seq<Request>)
    requires Consistent(s)
    ensures Consistent(HandleAll(ties, s, qs))
    decreases |qs|
  {
    hide Consistent, Handle;
    if qs != [] {
      HandleConsistent(ties, s, qs[0]);
      HandleAllConsistent(ties, Handle(ties, s, qs[0]).0, qs[1..]);
    }
  }

  // What that means for a reader of the place.
  lemma StoredRatings(ties: Ties, s: State, qs: seq<Request>, place: int)
    requires Consistent(s) && place in HandleAll(ties, s, qs).places
    ensures
      var t := HandleAll(ties, s, qs);
      var row, n := t.places[place], |ReviewsOf(t.reviews, place)|;
      && row.count == n
      && (n == 0 ==> row.avgTenths == 0)
      && (n > 0 ==>
            var mean := SumBelow(t.reviews, place, t.nextReview) as real / n as real;
            var stored := row.avgTenths as real / 10.0;
            -0.05 <= stored - mean <= 0.05 && 1.0 <= stored <= 5.0)
  {
    HandleAllConsistent(ties, s, qs);
    hide HandleAll, Agrees, RowsConsistent, SumBelow, ReviewsOf;
    var t := HandleAll(ties, s, qs);
    assert PlaceAgrees(t, place);
    AgreesMeans(t.places[place], SumBelow(t.reviews, place, t.nextReview), |ReviewsOf(t.reviews, place)|);
  }

  lemma AgreesMeans(row: PlaceRow, sum: nat, count: nat)
    requires Agrees(row, sum, count)
    ensures row.count == count && (count == 0 ==> row.avgTenths == 0)
    ensures
      count > 0 ==>
        var mean, stored := sum as real / count as real, row.avgTenths as real / 10.0;
        -0.05 <= stored - mean <= 0.05 && 1.0 <= stored <= 5.0
  {
    if count > 0 {
      WithinATwentieth(row, sum, count);
    }
  }

  // ----- who may change a review

  // The request is the author's on this review, or an administrator's deletion of it.
  predicate MayTouch(q: Request, id: nat, review: Review) {
    match q
    case Create(_, _, _, _, _, _) => false
    case Update(user, which, _) => which == id && user == review.user
    case Delete(user, which) => which == id && user == review.user
    case AdminDelete(which) => which == id
  }

  lemma ReviewStays(ties: Ties, s: State, q: Request, id: nat)
    requires Consistent(s) && id in s.reviews && !MayTouch(q, id, s.reviews[id])
    ensures id in Handle(ties, s, q).0.reviews && Handle(ties, s, q).0.reviews[id] == s.reviews[id]
    ensures q.Update? && q.review == id ==> Handle(ties, s, q) == (s, Some(ForbiddenReviewEdit))
    ensures q.Delete? && q.review == id ==> Handle(ties, s, q) == (s, Some(ForbiddenReviewDelete))
  {
    hide Aggregate, PlaceAgrees, RouteError, HasReview;
  }

  /** Over every run: a review is as it was unless its author, or an administrator, asked for a change. Others who ask
  are refused, and nothing changes. */
  lemma {:induction false} ReviewsStay(ties: Ties, s: State, qs: seq<Request>, id: nat)
    requires Consistent(s) && id in s.reviews
    requires forall i :: 0 <= i < |qs| ==> !MayTouch(qs[i], id, s.reviews[id])
    ensures
      var t := HandleAll(ties, s, qs);
      id in t.reviews && t.reviews[id] == s.reviews[id]
    decreases |qs|
  {
    hide Consistent, Handle, MayTouch;
    if qs != [] {
      ReviewStays(ties, s, qs[0], id);
      HandleConsistent(ties, s, qs[0]);
      ReviewsStay(ties, Handle(ties, s, qs[0]).0, qs[1..], id);
    }
  }

  // No route, or one of the user's own that includes the place.
  predicate RouteFits(s: State, user: int, place: int, route: Option<int>) {
    route.Some? ==>
      && route.value in s.routes
      && s.routes[route.value].owner == user
      && place in s.routes[route.value].places
  }

  /** The author's change goes through exactly when it names no route or a fitting one; then the review has the values
  asked for, the old ones elsewhere, and all other reviews stay. */
  lemma AuthorUpdates(ties: Ties, s: State, id: nat, changes: Changes)
    requires id in s.reviews
    ensures
      var review := s.reviews[id];
      var (t, refusal) := Handle(ties, s, Update(review.user, id, changes));
      && (refusal == None <==> changes.route.None? || RouteFits(s, review.user, review.place, changes.route.value))
      && (refusal == None ==>
            && t.reviews.Keys == s.reviews.Keys
            && (forall other :: other in s.reviews && other != id ==> t.reviews[other] == s.reviews[other])
            && t.reviews[id].user == review.user && t.reviews[id].place == review.place
            && t.reviews[id].rating == (if changes.rating.Some? then changes.rating.value else review.rating)
            && t.reviews[id].content == (if changes.content.Some? then changes.content.value else review.content)
            && t.reviews[id].image == (if changes.image.Some? then changes.image.value else review.image)
            && t.reviews[id].route == (if changes.route.Some? then changes.route.value else review.route))
  {
    hide Aggregate;
  }

  /** The author's deletion of a review goes through, and so does an administrator's of any review there is; it removes
  this one review. */
  lemma DeletionRemoves(ties: Ties, s: State, q: Request)
    requires q.AdminDelete? || (q.Delete? && q.review in s.reviews && s.reviews[q.review].user == q.user)
    ensures
      var (t, refusal) := Handle(ties, s, q);
      if q.review in s.reviews then refusal == None && t.reviews == s.reviews - {q.review}
      else refusal == Some(ReviewNotFound) && t == s
  {
    hide Aggregate;
  }

  /** A creation goes through exactly when the place exists, the user has not reviewed it yet and any route named fits;
  then there is this one review more, and an action unless it gives three stars. */
  lemma CreationAdds(ties: Ties, s: State, review: Review)
    requires Consistent(s)
    ensures
      var (t, refusal) := Handle(ties, s, Create(review.user, review.place, review.rating, review.content, review.image,
                                                 review.route));
      && (refusal == None <==>
            && review.place in s.places
            && (forall id :: id in s.reviews ==>
                  s.reviews[id].user != review.user || s.reviews[id].place != review.place)
            && RouteFits(s, review.user, review.place, review.route))
      && (refusal == None ==>
            && s.nextReview !in s.reviews && t.reviews == s.reviews[s.nextReview := review]
            && t.actions == (if review.rating == 3 then s.actions
                             else s.actions + [ActionRow(review.user, review.place, review.rating)]))
  {
    hide Aggregate, PlaceAgrees;
  }

  // Deleting a review just created gives the place its former rating back.
  lemma CreateThenDelete(ties: Ties, s: State, q: Request)
    requires Consistent(s) && q.Create? && Refusal(s, q) == None
    requires s.places[q.place] == Aggregate(ties, s, q.place)
    ensures
      var created := Handle(ties, s, q).0;
      var (t, refusal) := Handle(ties, created, Delete(q.user, s.nextReview));
      refusal == None && t.reviews == s.reviews && t.places == s.places
  {
    var created := Handle(ties, s, q).0;
    assert s.nextReview !in s.reviews;
    var t := Written(created, Delete(q.user, s.nextReview));
    hide Tenths, RouteError, SumBelow, CountBelow, OneReviewEach, Agrees, HasReview;
    assert t.reviews == s.reviews;
    assert SameFor(s.reviews, t.reviews, q.place);
    SumBeyond(t.reviews, q.place, s.nextReview, t.nextReview);
    assert Aggregate(ties, t, q.place) == Aggregate(ties, s, q.place);
  }

  lemma ActionsKeepAggregate(ties: Ties, s: State, before: seq<ActionRow>, after: seq<ActionRow>, place: int)
    ensures Aggregate(ties, s.(actions := before), place) == Aggregate(ties, s.(actions := after), place)
  {
  }

  // ----- the service

  class ReviewService {
    const ties: Ties
    var places: map<int, PlaceRow>
    var reviews: map<nat, Review>
    var nextReview: nat
    var routes: map<int, Route>
    var actions: seq<ActionRow>

    ghost function Abs(): State
      reads this
    {
      State(places, reviews, nextReview, routes, actions)
    }

    constructor (ties: Ties, places: map<int, PlaceRow>, routes: map<int, Route>)
      ensures this.ties == ties && Abs() == State(places, map[], 0, routes, [])
    {
      this.ties, this.places, this.routes := ties, places, routes;
      reviews, nextReview, actions := map[], 0, [];
    }

    method UpdateRating(place: int)
      modifies `places
      ensures Abs() == UpdatePlaceRating(ties, old(Abs()), place)
    {
      if place in places {
        var count, sum := CountBelow(reviews, place, nextReview), SumBelow(reviews, place, nextReview);
        var average := if count == 0 then 0 else Tenths(sum, count, ties(sum, count));
        places := places[place := PlaceRow(average, count)];
      }
    }

    method GetReviewRoute(user: int, place: int, route: Option<int>) returns (error: Option<ReviewError>)
      ensures error == RouteError(Abs(), user, place, route)
    {
      if route.None? {
        return None;
      }
      if route.value !in routes || routes[route.value].owner != user {
        return Some(RouteNotFound);
      }
      if place !in routes[route.value].places {
        return Some(RouteNotIncluded);
      }
      return None;
    }

    method CreateReview(user: int, place: int, rating: Stars, content: string, image: Option<string>,
                        route: Option<int>)
      returns (r: Result<nat, ReviewError>)
      modifies this
      ensures
        var (t, refusal) := Handle(ties, old(Abs()), Create(user, place, rating, content, image, route));
        Abs() == t && r == if refusal.Some? then Err(refusal.value) else Ok(old(nextReview))
    {
      hide Aggregate, HasReview, RouteError;
      if place !in places {
        return Err(PlaceNotFound);
      }
      if HasReview(reviews, user, place) {
        return Err(AlreadyReviewed);
      }
      var error := GetReviewRoute(user, place, route);
      if error.Some? {
        return Err(error.value);
      }
      AddReview(Review(user, place, rating, content, image, route));
      return Ok(nextReview - 1);
    }

    // The writes of an accepted creation.
    method AddReview(review: Review)
      requires review.place in places
      modifies this
      ensures nextReview == old(nextReview) + 1
      ensures Abs() == UpdatePlaceRating(ties, Added(old(Abs()), review), review.place)
    {
      hide Aggregate;
      reviews := reviews[nextReview := review];
      nextReview := nextReview + 1;
      ActionsKeepAggregate(ties, Abs(), actions, actions + ActionsOf(review), review.place);
      UpdateRating(review.place);
      if review.rating != 3 {
        actions := actions + [ActionRow(review.user, review.place, review.rating)];
      }
      assert old(actions) + [] == old(actions);
    }

    method UpdateReview(user: int, id: nat, changes: Changes) returns (r: Result<Review, ReviewError>)
      modifies `reviews, `places
      ensures
        var (t, refusal) := Handle(ties, old(Abs()), Update(user, id, changes));
        && Abs() == t
        && if refusal.Some? then r == Err(refusal.value) else id in reviews && r == Ok(reviews[id])
    {
      hide Aggregate;
      if id !in reviews {
        return Err(ReviewNotFound);
      }
      var review := reviews[id];
      if review.user != user {
        return Err(ForbiddenReviewEdit);
      }
      if changes.rating.Some? {
        review := review.(rating := changes.rating.value);
      }
      if changes.content.Some? {
        review := review.(content := changes.content.value);
      }
      if changes.image.Some? {
        review := review.(image := changes.image.value);
      }
      if changes.route.Some? {
        var error := GetReviewRoute(user, review.place, changes.route.value);
        if error.Some? {
          return Err(error.value);
        }
        review := review.(route := changes.route.value);
      }
      reviews := reviews[id := review];
      UpdateRating(review.place);
      return Ok(review);
    }

    method DeleteReview(user: int, id: nat) returns (error: Option<ReviewError>)
      modifies `reviews, `places
      ensures (Abs(), error) == Handle(ties, old(Abs()), Delete(user, id))
    {
      hide Aggregate;
      if id !in reviews {
        return Some(ReviewNotFound);
      }
      if reviews[id].user != user {
        return Some(ForbiddenReviewDelete);
      }
      var place := reviews[id].place;
      reviews := reviews - {id};
      UpdateRating(place);
      return None;
    }

    method AdminDeleteReview(id: nat) returns (error: Option<ReviewError>)
      modifies `reviews, `places
      ensures (Abs(), error) == Handle(ties, old(Abs()), AdminDelete(id))
    {
      hide Aggregate;
      if id !in reviews {
        return Some(ReviewNotFound);
      }
      var place := reviews[id].place;
      reviews := reviews - {id};
      UpdateRating(place);
      return None;
    }
  }
}
