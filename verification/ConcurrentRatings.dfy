/** Review requests in concurrent transactions at READ COMMITTED.

A request writes its review row, locks the row of the place, computes the aggregate from the committed reviews and
its own change, writes the place and commits. The schedule chooses which transaction moves next and when one is
rolled back. A write waits while another transaction holds an uncommitted change of the same review, or an
uncommitted new review of the same user and place. `locking` tells whether the place row is locked at all.
 */
module ConcurrentRatings {
  import opened Common
  import opened Ratings

  // What a transaction does to one review row; no row is left when `after` is None.
  datatype Change = Change(id: nat, place: int, isNew: bool, after: Option<Review>)

  datatype Phase =
    | Arrived
    | Wrote(change: Change)
    | Locked(change: Change)
    | Saved(change: Change, row: PlaceRow)
    | Committed
    | RolledBack

  datatype World = World(s: State, phases: seq<Phase>)

  datatype Move = Advance(i: nat) | Abort(i: nat)

  predicate Open(p: Phase) {
    p.Wrote? || p.Locked? || p.Saved?
  }

  predicate Holds(p: Phase) {
    p.Locked? || p.Saved?
  }

  // ----- one move

  function ChangeOf(s: State, q: Request): Change
    requires Refusal(s, q) == None
  {
    match q
    case Create(user, place, rating, content, image, route) =>
      Change(s.nextReview, place, true, Some(Review(user, place, rating, content, image, route)))
    case Update(_, id, changes) => Change(id, s.reviews[id].place, false, Some(Changed(s.reviews[id], changes)))
    case Delete(_, id) => Change(id, s.reviews[id].place, false, None)
    case AdminDelete(id) => Change(id, s.reviews[id].place, false, None)
  }

  predicate SameReviewer(a: Change, b: Change) {
    && a.isNew && b.isNew
    && a.place == b.place
    && a.after.Some? && b.after.Some? && a.after.value.user == b.after.value.user
  }

  // One of the two has to wait for the other.
  predicate Clash(a: Change, b: Change) {
    a.id == b.id || SameReviewer(a, b)
  }

  predicate MustWait(phases: seq<Phase>, change: Change) {
    exists j :: 0 <= j < |phases| && Open(phases[j]) && Clash(phases[j].change, change)
  }

  predicate PlaceLocked(phases: seq<Phase>, place: int) {
    exists j :: 0 <= j < |phases| && Holds(phases[j]) && phases[j].change.place == place
  }

  function Applied(reviews: map<nat, Review>, change: Change): map<nat, Review> {
    if change.after.Some? then reviews[change.id := change.after.value] else reviews - {change.id}
  }

  // The committed reviews as the transaction sees them.
  function Seen(s: State, change: Change): State {
    s.(reviews := Applied(s.reviews, change))
  }

  function Progress(ties: Ties, locking: bool, w: World, q: Request, p: Phase): Phase {
    match p
    case Arrived =>
      if Refusal(w.s, q) != None then RolledBack
      else if MustWait(w.phases, ChangeOf(w.s, q)) then Arrived
      else Wrote(ChangeOf(w.s, q))
    case Wrote(change) => if locking && PlaceLocked(w.phases, change.place) then p else Locked(change)
    case Locked(change) => Saved(change, Aggregate(ties, Seen(w.s, change), change.place))
    case Saved(_, _) => Committed
    case Committed => p
    case RolledBack => p
  }

  // Ids are given out at once, rows appear at the commit.
  function Effects(s: State, p: Phase, after: Phase): State {
    if p.Saved? then Seen(s, p.change).(places := s.places[p.change.place := p.row])
    else if p.Arrived? && after.Wrote? && after.change.isNew then s.(nextReview := s.nextReview + 1)
    else s
  }

  function Step(ties: Ties, locking: bool, qs: seq<Request>, w: World, m: Move): (t: World)
    requires |qs| == |w.phases|
    ensures |t.phases| == |w.phases|
  {
    if m.i >= |w.phases| then w
    else
      var p := w.phases[m.i];
      match m
      case Advance(i) =>
        var after := Progress(ties, locking, w, qs[i], p);
        World(Effects(w.s, p, after), w.phases[i := after])
      case Abort(i) => if p.Committed? then w else w.(phases := w.phases[i := RolledBack])
  }

  function Run(ties: Ties, locking: bool, qs: seq<Request>, w: World, moves: seq<Move>): (t: World)
    requires |qs| == |w.phases|
    ensures |t.phases| == |w.phases|
    decreases |moves|
  {
    if moves == [] then w else Run(ties, locking, qs, Step(ties, locking, qs, w, moves[0]), moves[1..])
  }

  // A transaction that has not committed can be rolled back at any moment, and leaves no trace.
  lemma AbortLeavesNoTrace(ties: Ties, locking: bool, qs: seq<Request>, w: World, i: nat)
    requires |qs| == |w.phases| && i < |w.phases| && !w.phases[i].Committed?
    ensures Step(ties, locking, qs, w, Abort(i)) == World(w.s, w.phases[i := RolledBack])
  {
  }

  // ----- what holds at every moment

  ghost predicate ChangeOk(s: State, c: Change) {
    && c.id < s.nextReview
    && c.place in s.places
    && (c.after.Some? ==> c.after.value.place == c.place)
    && (if c.isNew then
          && c.after.Some?
          && c.id !in s.reviews
          && !HasReview(s.reviews, c.after.value.user, c.place)
        else
          && c.id in s.reviews
          && s.reviews[c.id].place == c.place
          && (c.after.Some? ==> c.after.value.user == s.reviews[c.id].user))
  }

  ghost predicate RowOk(s: State, c: Change, row: PlaceRow) {
    var t := Seen(s, c);
    Agrees(row, SumBelow(t.reviews, c.place, t.nextReview), |ReviewsOf(t.reviews, c.place)|)
  }

  ghost predicate PhaseOk(s: State, p: Phase) {
    && (Open(p) ==> ChangeOk(s, p.change))
    && (p.Saved? ==> RowOk(s, p.change, p.row))
  }

  ghost predicate PairOk(p: Phase, q: Phase) {
    && (Open(p) && Open(q) ==> !Clash(p.change, q.change))
    && (Holds(p) && Holds(q) ==> p.change.place != q.change.place)
  }

  ghost predicate PairsOk(phases: seq<Phase>) {
    forall i, j :: 0 <= i < |phases| && 0 <= j < |phases| && i != j ==> PairOk(phases[i], phases[j])
  }

  ghost predicate Inv(w: World) {
    && Consistent(w.s)
    && (forall i :: 0 <= i < |w.phases| ==> PhaseOk(w.s, w.phases[i]))
    && PairsOk(w.phases)
  }

  // ----- changes and the aggregates

  lemma SeenRows(s: State, c: Change)
    requires RowsConsistent(s) && ChangeOk(s, c)
    ensures RowsConsistent(Seen(s, c))
  {
    if c.isNew {
      assert forall id :: id in s.reviews && s.reviews[id].place == c.place ==>
        s.reviews[id].user != c.after.value.user;
    }
  }

  lemma SavedRowOk(ties: Ties, s: State, c: Change)
    requires RowsConsistent(s) && ChangeOk(s, c)
    ensures RowOk(s, c, Aggregate(ties, Seen(s, c), c.place))
  {
    SeenRows(s, c);
    hide Aggregate, ReviewsOf, SumBelow, RowsConsistent, Applied;
    AggregateAgrees(ties, Seen(s, c), c.place);
  }

  // Two sets of reviews that are the same for a place have the same aggregates there.
  lemma SameAggregates(a: map<nat, Review>, b: map<nat, Review>, place: int, bound: nat, more: nat)
    requires SameFor(a, b, place) && bound <= more
    requires forall id: nat :: bound <= id ==> !Counts(b, place, id)
    ensures SumBelow(a, place, bound) == SumBelow(b, place, more)
    ensures ReviewsOf(a, place) == ReviewsOf(b, place)
  {
    SumSame(a, b, place, bound);
    SumBeyond(b, place, bound, more);
    forall id
      ensures id in ReviewsOf(a, place) <==> id in ReviewsOf(b, place)
    {
      assert Counts(a, place, id) <==> Counts(b, place, id);
    }
  }

  // What another transaction commits at another place leaves this place's reviews alone, as seen by anyone.
  lemma OtherPlaceSame(s: State, c: Change, place: int)
    requires ChangeOk(s, c) && c.place != place
    ensures SameFor(s.reviews, Applied(s.reviews, c), place)
  {
  }

  lemma OtherSeenSame(s: State, c: Change, d: Change)
    requires ChangeOk(s, c) && c.place != d.place && c.id != d.id
    ensures SameFor(Applied(s.reviews, d), Applied(Applied(s.reviews, c), d), d.place)
  {
  }

  lemma NoneBeyond(s: State, d: Change, id: nat)
    requires RowsConsistent(s) && ChangeOk(s, d) && id >= s.nextReview
    ensures !Counts(Applied(s.reviews, d), d.place, id)
  {
  }

  function AfterCommit(s: State, c: Change, row: PlaceRow): State {
    Seen(s, c).(places := s.places[c.place := row])
  }

  lemma CommitConsistent(s: State, c: Change, row: PlaceRow)
    requires Consistent(s) && ChangeOk(s, c) && RowOk(s, c, row)
    ensures Consistent(AfterCommit(s, c, row))
  {
    var t := AfterCommit(s, c, row);
    SeenRows(s, c);
    hide Agrees, SumBelow, ReviewsOf, OneReviewEach, HasReview;
    assert RowsConsistent(t);
    forall p
      ensures PlaceAgrees(t, p)
    {
      if p != c.place {
        assert PlaceAgrees(s, p);
        OtherPlaceSame(s, c, p);
        forall id: nat | s.nextReview <= id
          ensures !Counts(t.reviews, p, id)
        {
        }
        SameAggregates(s.reviews, t.reviews, p, s.nextReview, s.nextReview);
      }
    }
  }

  lemma CommitKeepsChange(s: State, c: Change, row: PlaceRow, d: Change)
    requires ChangeOk(s, c) && ChangeOk(s, d) && !Clash(c, d)
    ensures ChangeOk(AfterCommit(s, c, row), d)
  {
    var t := AfterCommit(s, c, row);
    if d.isNew {
      var user := d.after.value.user;
      assert forall id :: id in s.reviews && s.reviews[id].place == d.place ==> s.reviews[id].user != user;
      assert forall id :: id in t.reviews && t.reviews[id].place == d.place ==> t.reviews[id].user != user;
    }
  }

  lemma CommitKeepsRow(s: State, c: Change, row: PlaceRow, d: Change, other: PlaceRow)
    requires RowsConsistent(s) && ChangeOk(s, c) && ChangeOk(s, d) && c.place != d.place && c.id != d.id
    requires RowOk(s, d, other)
    ensures RowOk(AfterCommit(s, c, row), d, other)
  {
    var t := AfterCommit(s, c, row);
    OtherSeenSame(s, c, d);
    forall id: nat | s.nextReview <= id
      ensures !Counts(Applied(t.reviews, d), d.place, id)
    {
      NoneBeyond(s, d, id);
    }
    SameAggregates(Applied(s.reviews, d), Applied(t.reviews, d), d.place, s.nextReview, s.nextReview);
    hide Agrees, SumBelow, ReviewsOf, ChangeOk, RowsConsistent, Applied;
  }

  // A commit leaves the other transactions justified.
  lemma CommitKeepsPhase(s: State, p: Phase, q: Phase)
    requires Consistent(s) && p.Saved? && PhaseOk(s, p) && PhaseOk(s, q) && PairOk(p, q)
    ensures PhaseOk(AfterCommit(s, p.change, p.row), q)
  {
    hide RowOk, ChangeOk, Clash, AfterCommit, RowsConsistent, PlaceAgrees;
    if Open(q) {
      CommitKeepsChange(s, p.change, p.row, q.change);
      if q.Saved? {
        ClashIds(p.change, q.change);
        CommitKeepsRow(s, p.change, p.row, q.change, q.row);
      }
    }
  }

  lemma ClashIds(a: Change, b: Change)
    requires !Clash(a, b)
    ensures a.id != b.id
  {
  }

  // Handing out an id disturbs nothing.
  lemma NextIdConsistent(s: State)
    requires Consistent(s)
    ensures Consistent(s.(nextReview := s.nextReview + 1))
  {
    var t := s.(nextReview := s.nextReview + 1);
    hide Agrees, SumBelow, CountBelow, ReviewsOf, OneReviewEach;
    forall p
      ensures PlaceAgrees(t, p)
    {
      assert PlaceAgrees(s, p);
      SumBeyond(s.reviews, p, s.nextReview, t.nextReview);
    }
  }

  lemma NextIdKeepsPhase(s: State, q: Phase)
    requires RowsConsistent(s) && PhaseOk(s, q)
    ensures PhaseOk(s.(nextReview := s.nextReview + 1), q)
  {
    if q.Saved? {
      var c := q.change;
      NoneBeyond(s, c, s.nextReview);
      SumBeyond(Applied(s.reviews, c), c.place, s.nextReview, s.nextReview + 1);
      hide Agrees, SumBelow, CountBelow, ReviewsOf, OneReviewEach, Applied;
    }
  }

  // ----- the moves

  lemma ChangeOfOk(s: State, q: Request)
    requires RowsConsistent(s) && Refusal(s, q) == None
    ensures
      var c := ChangeOf(s, q);
      ChangeOk(if c.isNew then s.(nextReview := s.nextReview + 1) else s, c)
  {
    hide RouteError, OneReviewEach;
  }

  lemma ProgressOk(ties: Ties, w: World, q: Request, i: nat)
    requires Inv(w) && i < |w.phases| && !w.phases[i].Saved?
    ensures
      var after := Progress(ties, true, w, q, w.phases[i]);
      PhaseOk(Effects(w.s, w.phases[i], after), after)
  {
    var p := w.phases[i];
    assert PhaseOk(w.s, p);
    hide RowOk, ChangeOk, Refusal, ChangeOf, PlaceAgrees, PairsOk, RowsConsistent, MustWait, PlaceLocked, Aggregate;
    match p
    case Arrived =>
      if Refusal(w.s, q) == None {
        ChangeOfOk(w.s, q);
      }
    case Locked(change) => SavedRowOk(ties, w.s, change);
    case _ =>
  }

  // What the mover comes to hold is held by no other.
  lemma ProgressPair(ties: Ties, w: World, q: Request, i: nat, j: nat)
    requires Inv(w) && i < |w.phases| && j < |w.phases| && i != j
    ensures PairOk(Progress(ties, true, w, q, w.phases[i]), w.phases[j])
    ensures PairOk(w.phases[j], Progress(ties, true, w, q, w.phases[i]))
  {
    assert PairOk(w.phases[i], w.phases[j]) && PairOk(w.phases[j], w.phases[i]);
    hide Refusal, ChangeOf, Aggregate, Consistent, PhaseOk;
    var after := Progress(ties, true, w, q, w.phases[i]);
    if w.phases[i].Arrived? && after.Wrote? && Open(w.phases[j]) {
      ClashSymmetric(w.phases[j].change, after.change);
    }
  }

  lemma ClashSymmetric(a: Change, b: Change)
    ensures Clash(a, b) == Clash(b, a)
  {
  }

  lemma AdvanceInv(ties: Ties, qs: seq<Request>, w: World, i: nat)
    requires |qs| == |w.phases| && Inv(w) && i < |w.phases|
    ensures Inv(Step(ties, true, qs, w, Advance(i)))
  {
    var p := w.phases[i];
    var after := Progress(ties, true, w, qs[i], p);
    var t := Effects(w.s, p, after);
    forall j | 0 <= j < |w.phases| && j != i
      ensures PhaseOk(t, w.phases[j])
      ensures PairOk(after, w.phases[j]) && PairOk(w.phases[j], after)
    {
      assert PhaseOk(w.s, w.phases[j]) && PhaseOk(w.s, p) && PairOk(p, w.phases[j]);
      ProgressPair(ties, w, qs[i], i, j);
      OtherPhaseKept(ties, w, qs[i], p, w.phases[j]);
    }
    if p.Saved? {
      assert PhaseOk(w.s, p);
      CommitConsistent(w.s, p.change, p.row);
    } else {
      ProgressOk(ties, w, qs[i], i);
      NextIdConsistent(w.s);
    }
    hide Progress, PhaseOk, PairOk, PlaceAgrees, RowsConsistent;
    assert PairsOk(w.phases[i := after]);
  }

  lemma OtherPhaseKept(ties: Ties, w: World, q: Request, p: Phase, other: Phase)
    requires Consistent(w.s) && PhaseOk(w.s, p) && PhaseOk(w.s, other) && PairOk(p, other)
    ensures PhaseOk(Effects(w.s, p, Progress(ties, true, w, q, p)), other)
  {
    hide PlaceAgrees, RowsConsistent, PhaseOk, PairOk, Progress;
    if p.Saved? {
      CommitKeepsPhase(w.s, p, other);
    } else {
      NextIdKeepsPhase(w.s, other);
    }
  }

  lemma StepInv(ties: Ties, qs: seq<Request>, w: World, m: Move)
    requires |qs| == |w.phases| && Inv(w)
    ensures Inv(Step(ties, true, qs, w, m))
  {
    if m.i < |w.phases| {
      match m
      case Advance(i) => AdvanceInv(ties, qs, w, i);
      case Abort(i) => hide Consistent;
    }
  }

  lemma {:induction false} RunInv(ties: Ties, qs: seq<Request>, w: World, moves: seq<Move>)
    requires |qs| == |w.phases| && Inv(w)
    ensures Inv(Run(ties, true, qs, w, moves))
    decreases |moves|
  {
    hide Inv, Step;
    if moves != [] {
      StepInv(ties, qs, w, moves[0]);
      RunInv(ties, qs, Step(ties, true, qs, w, moves[0]), moves[1..]);
    }
  }

  function Opening(s: State, qs: seq<Request>): World {
    World(s, seq(|qs|, i => Arrived))
  }

  /** Whatever the schedule of any number of requests, at every moment the committed ratings agree with the committed
  reviews, and each user has at most one committed review of a place. */
  lemma CommittedAlwaysConsistent(ties: Ties, s: State, qs: seq<Request>, moves: seq<Move>)
    requires Consistent(s)
    ensures Consistent(Run(ties, true, qs, Opening(s, qs), moves).s)
  {
    hide Consistent;
    RunInv(ties, qs, Opening(s, qs), moves);
  }

  // ----- what the lock is for

  lemma RunCons(ties: Ties, locking: bool, qs: seq<Request>, w: World, m: Move, rest: seq<Move>)
    requires |qs| == |w.phases|
    ensures Run(ties, locking, qs, w, [m] + rest) == Run(ties, locking, qs, Step(ties, locking, qs, w, m), rest)
  {
    assert ([m] + rest)[1..] == rest;
  }

  // Two transactions that have written their reviews, and the rest of a schedule that takes them in turns.
  function BothWrote(s: State, a: Change, b: Change): World {
    World(s, [Wrote(a), Wrote(b)])
  }

  const IN_TURNS: seq<Move> :=
    [Advance(0)] + ([Advance(1)] + ([Advance(0)] + ([Advance(1)] + ([Advance(0)] + ([Advance(1)] + [])))))

  lemma SecondOverwrites(ties: Ties, s: State, qs: seq<Request>, a: Change, b: Change)
    requires |qs| == 2 && a.place == b.place && a.place in s.places
    ensures
      var t := Run(ties, false, qs, BothWrote(s, a, b), IN_TURNS).s;
      && a.place in t.places
      && t.reviews == Applied(Applied(s.reviews, a), b)
      && t.places[a.place] == Aggregate(ties, Seen(s, b), b.place)
  {
    hide Run, Aggregate, Applied;
    var rowA, rowB := Aggregate(ties, Seen(s, a), a.place), Aggregate(ties, Seen(s, b), b.place);
    var v0 := BothWrote(s, a, b);
    var v1 := World(s, [Locked(a), Wrote(b)]);
    var w0 := World(s, [Locked(a), Locked(b)]);
    var w1 := World(s, [Saved(a, rowA), Locked(b)]);
    var w2 := World(s, [Saved(a, rowA), Saved(b, rowB)]);
    var w3 := World(AfterCommit(s, a, rowA), [Committed, Saved(b, rowB)]);
    var m3: seq<Move> := [Advance(1)] + [];
    var m2 := [Advance(0)] + m3;
    var m1 := [Advance(1)] + m2;
    var m0 := [Advance(0)] + m1;
    assert v0.phases[0 := Locked(a)] == v1.phases;
    assert v1.phases[1 := Locked(b)] == w0.phases;
    RunCons(ties, false, qs, v0, Advance(0), [Advance(1)] + m0);
    RunCons(ties, false, qs, v1, Advance(1), m0);
    assert w0.phases[0 := Saved(a, rowA)] == w1.phases;
    assert w1.phases[1 := Saved(b, rowB)] == w2.phases;
    assert w2.phases[0 := Committed] == w3.phases;
    RunCons(ties, false, qs, w0, Advance(0), m1);
    RunCons(ties, false, qs, w1, Advance(1), m2);
    RunCons(ties, false, qs, w2, Advance(0), m3);
    RunCons(ties, false, qs, w3, Advance(1), []);
    RunNothing(ties, qs, Step(ties, false, qs, w3, Advance(1)));
  }

  lemma RunNothing(ties: Ties, qs: seq<Request>, w: World)
    requires |qs| == |w.phases|
    ensures Run(ties, false, qs, w, []) == w
  {
  }

  /** Without the lock a rating goes missing: from a consistent state and two new reviews of one place, six moves end
  with both reviews committed and a stored count that leaves one of them out. */
  lemma WithoutLockARatingIsLost(ties: Ties, s: State, qs: seq<Request>, a: Change, b: Change)
    requires Consistent(s) && |qs| == 2 && ChangeOk(s, a) && ChangeOk(s, b) && !Clash(a, b)
    requires a.isNew && b.isNew && a.place == b.place
    ensures
      var t := Run(ties, false, qs, BothWrote(s, a, b), IN_TURNS).s;
      a.place in t.places && t.places[a.place].count + 1 == |ReviewsOf(t.reviews, a.place)|
  {
    SecondOverwrites(ties, s, qs, a, b);
    SeenRows(s, b);
    AllBelow(Seen(s, b), b.place);
    OneMoreReview(s, a, b);
    hide Run, CountBelow, ReviewsOf, Applied, ChangeOk, IN_TURNS;
  }

  lemma OneMoreReview(s: State, a: Change, b: Change)
    requires ChangeOk(s, a) && ChangeOk(s, b) && !Clash(a, b) && a.isNew && b.isNew && a.place == b.place
    ensures
      var mine, both := Applied(s.reviews, b), Applied(Applied(s.reviews, a), b);
      |ReviewsOf(both, a.place)| == |ReviewsOf(mine, a.place)| + 1
  {
    hide HasReview, ReviewsOf, SameReviewer;
    var mine := Applied(s.reviews, b);
    assert Applied(Applied(s.reviews, a), b) == mine[a.id := a.after.value];
    AddedReview(mine, a.id, a.after.value);
  }

  lemma AddedReview(reviews: map<nat, Review>, id: nat, review: Review)
    requires id !in reviews
    ensures |ReviewsOf(reviews[id := review], review.place)| == |ReviewsOf(reviews, review.place)| + 1
  {
    assert ReviewsOf(reviews[id := review], review.place) == ReviewsOf(reviews, review.place) + {id};
  }
}
