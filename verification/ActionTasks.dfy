/** The two tasks that keep a user's behaviour vector and action count, and the feed stage read from them.

The queue may deliver an update any number of times, in any order, and a delivery may fail, which rolls its
transaction back. The nightly batch takes one user at a time, first reading the logs, then writing the vector;
deliveries may come in between.
 */
module ActionTasks {
  import opened Common
  import CV = ContentVector

  const S3_ACTION_COUNT_THRESHOLD := 10
  const BEHAVIOR_LOOKBACK_DAYS: real := 90.0

  datatype LogRow = LogRow(user: int, place: int, weight: real, createdAt: real, processed: bool)

  datatype Preference = Preference(vector: Option<CV.Vector>, count: nat)

  datatype Message = Message(user: int, log: int)

  datatype Computed = Computed(user: int, vector: Option<CV.Vector>)

  /** `features` holds the vectors of the places that have one, `sent` the messages ever put on the queue,
  `eligible` the users a batch has found above the threshold and may take from then on, and `computed` the vectors a
  batch has computed and not yet written. */
  datatype State = State(
    logs: map<int, LogRow>,
    nextLog: nat,
    preferences: map<int, Preference>,
    features: map<int, CV.Vector>,
    sent: set<Message>,
    eligible: set<int>,
    computed: multiset<Computed>
  )

  datatype Config = Config(root: CV.RealFunction, decay: CV.Decay, dimension: nat)

  datatype Event =
    | Record(user: int, place: int, weight: real, createdAt: real)
    | Embed(place: int, vector: Option<CV.Vector>)
    | Deliver(message: Message, fails: bool)
    | BatchStart
    | BatchRead(owner: int, now: real)
    | BatchWrite(result: Computed)

  const EMPTY := State(map[], 0, map[], map[], {}, {}, multiset{})

  // ----- one step

  function PreferenceOf(s: State, user: int): Preference {
    if user in s.preferences then s.preferences[user] else Preference(None, 0)
  }

  predicate ShouldBeS3(count: nat) {
    count >= S3_ACTION_COUNT_THRESHOLD
  }

  // Vectors have the dimension of their columns.
  ghost predicate Dimensional(c: Config, s: State) {
    && (forall p :: p in s.features ==> |s.features[p]| == c.dimension)
    && (forall u :: u in s.preferences && s.preferences[u].vector.Some? ==>
          |s.preferences[u].vector.value| == c.dimension)
    && forall r :: r in s.computed && r.vector.Some? ==> |r.vector.value| == c.dimension
  }

  // The vector of the log's place is applied when this is at least the tenth action and the place has one.
  predicate Applies(s: State, m: Message) {
    && m.log in s.logs
    && !s.logs[m.log].processed
    && ShouldBeS3(PreferenceOf(s, m.user).count + 1)
    && s.logs[m.log].place in s.features
  }

  function ActionOf(s: State, m: Message): CV.Action
    requires Applies(s, m)
  {
    CV.Action(s.logs[m.log].weight, s.features[s.logs[m.log].place])
  }

  function UpdatedVector(c: Config, s: State, m: Message): Option<CV.Vector>
    requires Dimensional(c, s)
  {
    var current := PreferenceOf(s, m.user).vector;
    if Applies(s, m) then CV.ApplyIncremental(c.root, current, ActionOf(s, m)) else current
  }

  function Delivered(c: Config, s: State, m: Message): State
    requires Dimensional(c, s)
  {
    if m.log !in s.logs || s.logs[m.log].processed then s
    else s.(
      preferences := s.preferences[m.user :=
        Preference(UpdatedVector(c, s, m), PreferenceOf(s, m.user).count + 1)],
      logs := s.logs[m.log := s.logs[m.log].(processed := true)])
  }

  predicate Recent(s: State, user: int, id: int, now: real) {
    && id in s.logs
    && s.logs[id].user == user
    && s.logs[id].createdAt >= now - BEHAVIOR_LOOKBACK_DAYS * 86400.0
  }

  // The user's logs of the look-back window among those with ids below `bound`, processed or not.
  function RecentLogs(s: State, user: int, now: real, bound: nat): seq<CV.Log> {
    if bound == 0 then []
    else
      var id := bound - 1;
      var before := RecentLogs(s, user, now, id);
      if Recent(s, user, id, now) then before + [AsLog(s, s.logs[id])] else before
  }

  function AsLog(s: State, row: LogRow): CV.Log {
    CV.Log(row.weight, row.createdAt, if row.place in s.features then Some(s.features[row.place]) else None)
  }

  lemma {:induction false} RecentLogsDimension(c: Config, s: State, user: int, now: real, bound: nat)
    requires Dimensional(c, s)
    ensures CV.LogsOfDimension(RecentLogs(s, user, now, bound), c.dimension)
  {
    if bound > 0 {
      RecentLogsDimension(c, s, user, now, bound - 1);
    }
  }

  function VectorForUser(c: Config, s: State, user: int, now: real): Option<CV.Vector>
    requires Dimensional(c, s)
  {
    RecentLogsDimension(c, s, user, now, s.nextLog);
    CV.BatchVector(c.root, RecentLogs(s, user, now, s.nextLog), Some(c.decay), now, c.dimension)
  }

  function AboveThreshold(s: State): set<int> {
    set u | u in s.preferences && ShouldBeS3(s.preferences[u].count)
  }

  function WithVector(preferences: map<int, Preference>, user: int, vector: Option<CV.Vector>): map<int, Preference>
    requires user in preferences
  {
    preferences[user := preferences[user].(vector := vector)]
  }

  function Step(c: Config, s: State, e: Event): State
    requires Dimensional(c, s)
  {
    match e
    case Record(user, place, weight, createdAt) =>
      s.(logs := s.logs[s.nextLog := LogRow(user, place, weight, createdAt, false)],
         nextLog := s.nextLog + 1,
         sent := s.sent + {Message(user, s.nextLog)})
    case Embed(place, vector) =>
      if vector.None? then s.(features := s.features - {place})
      else if |vector.value| == c.dimension then s.(features := s.features[place := vector.value])
      else s
    case Deliver(m, fails) =>
      if fails || m !in s.sent then s else Delivered(c, s, m)
    case BatchStart =>
      s.(eligible := s.eligible + AboveThreshold(s))
    case BatchRead(user, now) =>
      if user in s.eligible then s.(computed := s.computed + multiset{Computed(user, VectorForUser(c, s, user, now))})
      else s
    case BatchWrite(r) =>
      if r in s.computed && r.user in s.preferences then
        s.(computed := s.computed - multiset{r}, preferences := WithVector(s.preferences, r.user, r.vector))
      else s
  }

  lemma UpdatedVectorDimension(c: Config, s: State, m: Message)
    requires Dimensional(c, s)
    ensures UpdatedVector(c, s, m).Some? ==> |UpdatedVector(c, s, m).value| == c.dimension
  {
  }

  lemma VectorForUserDimension(c: Config, s: State, user: int, now: real)
    requires Dimensional(c, s)
    ensures VectorForUser(c, s, user, now).Some? ==> |VectorForUser(c, s, user, now).value| == c.dimension
  {
  }

  lemma DeliveredDimensional(c: Config, s: State, m: Message)
    requires Dimensional(c, s)
    ensures Dimensional(c, Delivered(c, s, m))
  {
    hide UpdatedVector;
    UpdatedVectorDimension(c, s, m);
  }

  lemma StepDimensional(c: Config, s: State, e: Event)
    requires Dimensional(c, s)
    ensures Dimensional(c, Step(c, s, e))
  {
    hide Delivered, VectorForUser, Dimensional, WithVector;
    match e
    case Deliver(m, _) => DeliveredDimensional(c, s, m);
    case BatchRead(user, now) => ReadDimensional(c, s, user, now);
    case BatchWrite(r) =>
      if r in s.computed && r.user in s.preferences {
        WriteDimensional(c, s, r);
      }
    case Embed(place, vector) => EmbedDimensional(c, s, place, vector);
    case _ => SameVectorsDimensional(c, s, Step(c, s, e));
  }

  lemma SameVectorsDimensional(c: Config, s: State, t: State)
    requires Dimensional(c, s)
    requires t.features == s.features && t.preferences == s.preferences && t.computed == s.computed
    ensures Dimensional(c, t)
  {
  }

  lemma EmbedDimensional(c: Config, s: State, place: int, vector: Option<CV.Vector>)
    requires Dimensional(c, s)
    ensures Dimensional(c, s.(features := s.features - {place}))
    ensures vector.Some? && |vector.value| == c.dimension ==>
              Dimensional(c, s.(features := s.features[place := vector.value]))
  {
  }

  lemma ReadDimensional(c: Config, s: State, user: int, now: real)
    requires Dimensional(c, s)
    ensures Dimensional(c, s.(computed := s.computed + multiset{Computed(user, VectorForUser(c, s, user, now))}))
  {
    VectorForUserDimension(c, s, user, now);
    hide VectorForUser;
  }

  lemma WriteDimensional(c: Config, s: State, r: Computed)
    requires Dimensional(c, s) && r in s.computed && r.user in s.preferences
    ensures Dimensional(c, s.(computed := s.computed - multiset{r},
                              preferences := WithVector(s.preferences, r.user, r.vector)))
  {
    assert forall q :: q in s.computed - multiset{r} ==> q in s.computed;
  }

  // ----- what every step keeps

  ghost function ProcessedOf(s: State, user: int): set<int> {
    set id | id in s.logs && s.logs[id].user == user && s.logs[id].processed
  }

  ghost predicate UnitOrAbsent(c: Config, vector: Option<CV.Vector>) {
    vector.Some? ==> |vector.value| == c.dimension && CV.SumOfSquares(vector.value) == 1.0
  }

  ghost predicate PreferenceConsistent(c: Config, p: Preference) {
    && UnitOrAbsent(c, p.vector)
    && (p.vector.Some? ==> ShouldBeS3(p.count))
  }

  // Every user's count is the number of their processed logs.
  ghost predicate CountsMatch(s: State) {
    forall u :: PreferenceOf(s, u).count == |ProcessedOf(s, u)|
  }

  ghost predicate PreferencesConsistent(c: Config, s: State) {
    forall u :: u in s.preferences ==> PreferenceConsistent(c, s.preferences[u])
  }

  ghost predicate EligibleCounted(s: State) {
    forall u :: u in s.eligible ==> ShouldBeS3(PreferenceOf(s, u).count)
  }

  // Log ids have been handed out, and a message names the user of its log.
  ghost predicate QueueConsistent(s: State) {
    && (forall id :: id in s.logs ==> 0 <= id < s.nextLog)
    && forall m :: m in s.sent ==> m.log in s.logs && s.logs[m.log].user == m.user
  }

  // What a batch has computed may be written.
  ghost predicate ComputedConsistent(c: Config, s: State) {
    forall r :: r in s.computed ==> UnitOrAbsent(c, r.vector) && ShouldBeS3(PreferenceOf(s, r.user).count)
  }

  ghost predicate Consistent(c: Config, s: State) {
    && Dimensional(c, s) && CountsMatch(s) && PreferencesConsistent(c, s)
    && EligibleCounted(s) && ComputedConsistent(c, s) && QueueConsistent(s)
  }

  lemma EmptyConsistent(c: Config)
    ensures Consistent(c, EMPTY)
  {
    forall u
      ensures PreferenceOf(EMPTY, u).count == |ProcessedOf(EMPTY, u)|
    {
      assert ProcessedOf(EMPTY, u) == {};
    }
  }

  lemma UpdatedVectorUnit(c: Config, s: State, m: Message)
    requires CV.IsRoot(c.root) && Consistent(c, s)
    ensures PreferenceConsistent(c, Preference(UpdatedVector(c, s, m), PreferenceOf(s, m.user).count + 1))
  {
    var current := PreferenceOf(s, m.user).vector;
    if Applies(s, m) {
      var action := ActionOf(s, m);
      var total := CV.AddScaled(CV.Base(current, c.dimension), action.weight, action.vector);
      if CV.Normalise(c.root, total).Some? {
        CV.NormaliseIsUnit(c.root, total);
      }
    }
  }

  // A delivery that finds its log unprocessed counts it, for its user alone.
  lemma DeliveredCounts(c: Config, s: State, m: Message, u: int)
    requires Dimensional(c, s) && m.log in s.logs && s.logs[m.log].user == m.user && !s.logs[m.log].processed
    ensures ProcessedOf(Delivered(c, s, m), u) == ProcessedOf(s, u) + if u == m.user then {m.log} else {}
    ensures m.log !in ProcessedOf(s, u)
  {
    hide UpdatedVector, Dimensional;
  }

  lemma DeliveredCountsMatch(c: Config, s: State, m: Message)
    requires Dimensional(c, s) && m.log in s.logs && s.logs[m.log].user == m.user && !s.logs[m.log].processed
    requires CountsMatch(s)
    ensures CountsMatch(Delivered(c, s, m))
  {
    hide UpdatedVector, Dimensional, ProcessedOf;
    var t := Delivered(c, s, m);
    forall u
      ensures PreferenceOf(t, u).count == |ProcessedOf(t, u)|
    {
      DeliveredCounts(c, s, m, u);
      if u != m.user {
        assert ProcessedOf(t, u) == ProcessedOf(s, u);
      }
    }
  }

  lemma DeliveredConsistent(c: Config, s: State, m: Message)
    requires CV.IsRoot(c.root) && Consistent(c, s) && m in s.sent
    ensures Consistent(c, Delivered(c, s, m))
  {
    hide UpdatedVector, UnitOrAbsent, Dimensional, CountsMatch, CV.IsRoot;
    if !s.logs[m.log].processed {
      UpdatedVectorUnit(c, s, m);
      StepDimensional(c, s, Deliver(m, false));
      DeliveredCountsMatch(c, s, m);
      var t := Delivered(c, s, m);
      assert PreferencesConsistent(c, t);
      assert EligibleCounted(t);
      assert ComputedConsistent(c, t);
      assert QueueConsistent(t);
    }
  }

  lemma VectorForUserUnit(c: Config, s: State, user: int, now: real)
    requires CV.IsRoot(c.root) && Dimensional(c, s)
    ensures UnitOrAbsent(c, VectorForUser(c, s, user, now))
  {
    RecentLogsDimension(c, s, user, now, s.nextLog);
    var total := CV.Total(RecentLogs(s, user, now, s.nextLog), Some(c.decay), now, c.dimension);
    if CV.Normalise(c.root, total).Some? {
      CV.NormaliseIsUnit(c.root, total);
    }
  }

  lemma SameLogsSameProcessed(s: State, t: State, u: int)
    requires forall id :: id in t.logs && t.logs[id].processed ==> id in s.logs && t.logs[id] == s.logs[id]
    requires forall id :: id in s.logs ==> id in t.logs && t.logs[id] == s.logs[id]
    ensures ProcessedOf(t, u) == ProcessedOf(s, u)
  {
    forall id
      ensures id in ProcessedOf(t, u) <==> id in ProcessedOf(s, u)
    {
      assert id in s.logs ==> id in t.logs && t.logs[id] == s.logs[id];
    }
  }

  // A step that processes no log, changes no count.
  lemma CountsKept(s: State, t: State)
    requires CountsMatch(s)
    requires forall u :: PreferenceOf(t, u).count == PreferenceOf(s, u).count
    requires forall id :: id in t.logs && t.logs[id].processed ==> id in s.logs && t.logs[id] == s.logs[id]
    requires forall id :: id in s.logs ==> id in t.logs && t.logs[id] == s.logs[id]
    ensures CountsMatch(t)
  {
    forall u
      ensures PreferenceOf(t, u).count == |ProcessedOf(t, u)|
    {
      SameLogsSameProcessed(s, t, u);
    }
  }

  lemma ReadConsistent(c: Config, s: State, user: int, now: real)
    requires CV.IsRoot(c.root) && Consistent(c, s)
    ensures Consistent(c, Step(c, s, BatchRead(user, now)))
  {
    StepDimensional(c, s, BatchRead(user, now));
    VectorForUserUnit(c, s, user, now);
    hide UnitOrAbsent, VectorForUser, Dimensional, CV.IsRoot, ProcessedOf;
    var t := Step(c, s, BatchRead(user, now));
    CountsKept(s, t);
    assert PreferencesConsistent(c, t);
    assert EligibleCounted(t);
    assert ComputedConsistent(c, t);
  }

  lemma WriteCounts(c: Config, s: State, r: Computed)
    requires Dimensional(c, s) && CountsMatch(s)
    ensures CountsMatch(Step(c, s, BatchWrite(r)))
    ensures forall u :: PreferenceOf(Step(c, s, BatchWrite(r)), u).count == PreferenceOf(s, u).count
  {
    hide Dimensional, ProcessedOf;
    CountsKept(s, Step(c, s, BatchWrite(r)));
  }

  lemma WriteConsistent(c: Config, s: State, r: Computed)
    requires Consistent(c, s)
    ensures Consistent(c, Step(c, s, BatchWrite(r)))
  {
    hide UnitOrAbsent, Dimensional, CountsMatch, ShouldBeS3;
    StepDimensional(c, s, BatchWrite(r));
    WriteCounts(c, s, r);
    var t := Step(c, s, BatchWrite(r));
    assert PreferencesConsistent(c, t);
    assert EligibleCounted(t) && ComputedConsistent(c, t) by {
      hide Step;
      FewerComputed(c, s, r);
    }
  }

  lemma FewerComputed(c: Config, s: State, r: Computed)
    requires Dimensional(c, s)
    ensures
      var t := Step(c, s, BatchWrite(r));
      t.eligible == s.eligible && forall other :: other in t.computed ==> other in s.computed
  {
    hide Dimensional;
  }

  // A state with the same counts, vectors and computations, up to new logs, messages and eligible users.
  lemma QuietConsistent(c: Config, s: State, t: State)
    requires Consistent(c, s) && Dimensional(c, t) && QueueConsistent(t)
    requires t.preferences == s.preferences && t.computed == s.computed
    requires forall u :: u in t.eligible ==> u in s.eligible || ShouldBeS3(PreferenceOf(s, u).count)
    requires forall id :: id in t.logs && t.logs[id].processed ==> id in s.logs && t.logs[id] == s.logs[id]
    requires forall id :: id in s.logs ==> id in t.logs && t.logs[id] == s.logs[id]
    ensures Consistent(c, t)
  {
    hide UnitOrAbsent, Dimensional, QueueConsistent, ProcessedOf, ShouldBeS3;
    CountsKept(s, t);
  }

  lemma RecordConsistent(c: Config, s: State, user: int, place: int, weight: real, createdAt: real)
    requires Consistent(c, s)
    ensures Consistent(c, Step(c, s, Record(user, place, weight, createdAt)))
  {
    StepDimensional(c, s, Record(user, place, weight, createdAt));
    hide Dimensional, CountsMatch, PreferencesConsistent, ComputedConsistent, EligibleCounted;
    QuietConsistent(c, s, Step(c, s, Record(user, place, weight, createdAt)));
  }

  lemma SameQueue(s: State, t: State)
    requires QueueConsistent(s) && t.logs == s.logs && t.nextLog == s.nextLog && t.sent == s.sent
    ensures QueueConsistent(t)
  {
  }

  lemma EmbedConsistent(c: Config, s: State, place: int, vector: Option<CV.Vector>)
    requires Consistent(c, s)
    ensures Consistent(c, Step(c, s, Embed(place, vector)))
  {
    hide Dimensional, CountsMatch, PreferencesConsistent, ComputedConsistent, EligibleCounted, QueueConsistent;
    StepDimensional(c, s, Embed(place, vector));
    SameQueue(s, Step(c, s, Embed(place, vector)));
    QuietConsistent(c, s, Step(c, s, Embed(place, vector)));
  }

  lemma StartConsistent(c: Config, s: State)
    requires Consistent(c, s)
    ensures Consistent(c, Step(c, s, BatchStart))
  {
    hide Dimensional, CountsMatch, PreferencesConsistent, ComputedConsistent, EligibleCounted, QueueConsistent;
    StepDimensional(c, s, BatchStart);
    SameQueue(s, Step(c, s, BatchStart));
    QuietConsistent(c, s, Step(c, s, BatchStart));
  }

  lemma StepConsistent(c: Config, s: State, e: Event)
    requires CV.IsRoot(c.root) && Consistent(c, s)
    ensures Consistent(c, Step(c, s, e))
  {
    hide Consistent, Delivered, VectorForUser, WithVector, AboveThreshold;
    match e
    case Deliver(m, fails) =>
      if !fails && m in s.sent {
        DeliveredConsistent(c, s, m);
      }
    case BatchRead(user, now) => ReadConsistent(c, s, user, now);
    case BatchWrite(r) => WriteConsistent(c, s, r);
    case BatchStart => StartConsistent(c, s);
    case Embed(place, vector) => EmbedConsistent(c, s, place, vector);
    case Record(user, place, weight, createdAt) => RecordConsistent(c, s, user, place, weight, createdAt);
  }

  // ----- runs

  function Run(c: Config, s: State, events: seq<Event>): (t: State)
    requires Dimensional(c, s)
    ensures Dimensional(c, t)
    decreases |events|
  {
    if events == [] then s
    else
      StepDimensional(c, s, events[0]);
      Run(c, Step(c, s, events[0]), events[1..])
  }

  lemma {:induction false} RunConsistent(c: Config, s: State, events: seq<Event>)
    requires CV.IsRoot(c.root) && Consistent(c, s)
    ensures Consistent(c, Run(c, s, events))
    decreases |events|
  {
    if events != [] {
      StepConsistent(c, s, events[0]);
      RunConsistent(c, Step(c, s, events[0]), events[1..]);
    }
  }

  // ----- the threshold and the look-back window

  /** A delivery counts one action more; from the tenth on it also applies the vector of the place, if it has one. */
  lemma TenthActionLearns(c: Config, s: State, m: Message)
    requires Consistent(c, s) && m in s.sent && !s.logs[m.log].processed
    ensures
      var row, n := s.logs[m.log], |ProcessedOf(s, m.user)|;
      var before, after := PreferenceOf(s, m.user), PreferenceOf(Delivered(c, s, m), m.user);
      && after.count == n + 1
      && after.vector ==
         if n + 1 >= 10 && row.place in s.features then
           CV.ApplyIncremental(c.root, before.vector, CV.Action(row.weight, s.features[row.place]))
         else before.vector
  {
    hide CV.ApplyIncremental, PreferencesConsistent, ComputedConsistent, EligibleCounted, ProcessedOf;
    assert PreferenceOf(s, m.user).count == |ProcessedOf(s, m.user)|;
  }

  // The batch takes the users with ten processed actions or more.
  lemma BatchTakesTheActive(c: Config, s: State, user: int)
    requires Consistent(c, s)
    ensures user in AboveThreshold(s) <==> |ProcessedOf(s, user)| >= 10
  {
    hide Dimensional, PreferencesConsistent, ComputedConsistent, EligibleCounted, QueueConsistent, ProcessedOf;
    assert PreferenceOf(s, user).count == |ProcessedOf(s, user)|;
  }

  // A log of the user, at most 90 days old.
  predicate InWindow(s: State, user: int, now: real, id: int) {
    id in s.logs && s.logs[id].user == user && now - s.logs[id].createdAt <= 90.0 * 24.0 * 3600.0
  }

  ghost function WindowBelow(s: State, user: int, now: real, bound: nat): set<int> {
    set id | 0 <= id < bound && InWindow(s, user, now, id)
  }

  // The batch reads exactly the logs in the window, each once.
  lemma {:induction false} RecentLogsExactly(s: State, user: int, now: real, bound: nat)
    ensures |RecentLogs(s, user, now, bound)| == |WindowBelow(s, user, now, bound)|
    ensures forall log :: log in RecentLogs(s, user, now, bound) <==>
                          exists id :: id in WindowBelow(s, user, now, bound) && log == AsLog(s, s.logs[id])
  {
    if bound > 0 {
      var id := bound - 1;
      var before, now' := WindowBelow(s, user, now, id), WindowBelow(s, user, now, bound);
      RecentLogsExactly(s, user, now, id);
      assert InWindow(s, user, now, id) <==> Recent(s, user, id, now);
      if InWindow(s, user, now, id) {
        assert now' == before + {id};
      } else {
        assert now' == before;
      }
    }
  }

  // ----- the feed stage

  datatype Stage = S1 | S2 | S3

  // None is an anonymous visitor; `quizTakers` are the users with a quiz result.
  function DetermineStage(s: State, quizTakers: set<int>, user: Option<int>): Stage {
    if user.None? then S1
    else
      var count := if user.value in s.preferences then s.preferences[user.value].count else 0;
      if ShouldBeS3(count) && user.value in s.preferences && s.preferences[user.value].vector.Some? then S3
      else if user.value in quizTakers then S2
      else S1
  }

  // After any run the stage is S3 exactly when there is a vector, and the vector is then a unit vector built
  // from at least ten processed actions.
  lemma StageIsVector(c: Config, events: seq<Event>, quizTakers: set<int>, user: int)
    requires CV.IsRoot(c.root)
    ensures
      var s := Run(c, EMPTY, events);
      var stage, p := DetermineStage(s, quizTakers, Some(user)), PreferenceOf(s, user);
      && p.count == |ProcessedOf(s, user)|
      && (stage == S3 <==> p.vector.Some?)
      && (stage == S2 <==> p.vector.None? && user in quizTakers)
      && (p.vector.Some? ==> |ProcessedOf(s, user)| >= 10 && CV.SumOfSquares(p.vector.value) == 1.0)
  {
    EmptyConsistent(c);
    RunConsistent(c, EMPTY, events);
  }

  // ----- order and duplication of deliveries

  ghost predicate DeliveredIn(events: seq<Event>, m: Message) {
    exists i :: 0 <= i < |events| && events[i] == Deliver(m, false)
  }

  // Steps other than deliveries change no log.
  lemma OtherStepsKeepLogs(c: Config, s: State, e: Event, id: int)
    requires Dimensional(c, s) && QueueConsistent(s) && id in s.logs && !e.Deliver?
    ensures
      var t, m := Step(c, s, e), Message(s.logs[id].user, id);
      && QueueConsistent(t)
      && s.sent <= t.sent
      && (m in t.sent <==> m in s.sent)
      && id in t.logs
      && t.logs[id] == s.logs[id]
      && (!e.Record? ==> t.logs.Keys == s.logs.Keys)
  {
    hide Dimensional, Step;
    if e.Record? {
      RecordKeepsLogs(c, s, e.user, e.place, e.weight, e.createdAt, id);
      assert e == Record(e.user, e.place, e.weight, e.createdAt);
    } else {
      LogsUntouched(c, s, e);
    }
  }

  predicate SameLogs(s: State, t: State) {
    t.logs == s.logs && t.sent == s.sent && t.nextLog == s.nextLog
  }

  lemma EmbedKeepsLogs(c: Config, s: State, place: int, vector: Option<CV.Vector>)
    requires Dimensional(c, s)
    ensures SameLogs(s, Step(c, s, Embed(place, vector)))
  {
    hide Dimensional;
  }

  lemma ReadKeepsLogs(c: Config, s: State, user: int, now: real)
    requires Dimensional(c, s)
    ensures SameLogs(s, Step(c, s, BatchRead(user, now)))
  {
    hide VectorForUser, Dimensional;
  }

  lemma WriteKeepsLogs(c: Config, s: State, r: Computed)
    requires Dimensional(c, s)
    ensures SameLogs(s, Step(c, s, BatchWrite(r)))
  {
    hide Dimensional, WithVector;
  }

  lemma StartKeepsLogs(c: Config, s: State)
    requires Dimensional(c, s)
    ensures SameLogs(s, Step(c, s, BatchStart))
  {
    hide Dimensional, AboveThreshold;
  }

  lemma LogsUntouched(c: Config, s: State, e: Event)
    requires Dimensional(c, s) && !e.Deliver? && !e.Record?
    ensures SameLogs(s, Step(c, s, e))
  {
    hide Step, Dimensional, SameLogs;
    match e
    case Embed(place, vector) => EmbedKeepsLogs(c, s, place, vector);
    case BatchStart => StartKeepsLogs(c, s);
    case BatchRead(user, now) => ReadKeepsLogs(c, s, user, now);
    case BatchWrite(r) => WriteKeepsLogs(c, s, r);
  }

  lemma RecordKeepsLogs(c: Config, s: State, user: int, place: int, weight: real, createdAt: real, id: int)
    requires Dimensional(c, s) && QueueConsistent(s) && id in s.logs
    ensures
      var t, m := Step(c, s, Record(user, place, weight, createdAt)), Message(s.logs[id].user, id);
      && QueueConsistent(t)
      && s.sent <= t.sent
      && (m in t.sent <==> m in s.sent)
      && id in t.logs
      && t.logs[id] == s.logs[id]
  {
    hide Dimensional;
  }

  lemma DeliveryProcesses(c: Config, s: State, m: Message, id: int)
    requires Dimensional(c, s) && QueueConsistent(s) && id in s.logs && m in s.sent
    ensures
      var t := Delivered(c, s, m);
      && QueueConsistent(t)
      && t.sent == s.sent
      && t.logs.Keys == s.logs.Keys
      && t.logs[id] == s.logs[id].(processed := s.logs[id].processed || m == Message(s.logs[id].user, id))
  {
    hide UpdatedVector, Dimensional;
  }

  // A step processes a log exactly when it is a successful delivery of the log's message.
  lemma StepProcesses(c: Config, s: State, e: Event, id: int)
    requires Dimensional(c, s) && QueueConsistent(s) && id in s.logs
    ensures
      var t, m := Step(c, s, e), Message(s.logs[id].user, id);
      && QueueConsistent(t)
      && s.sent <= t.sent
      && (m in t.sent <==> m in s.sent)
      && id in t.logs
      && t.logs[id] == s.logs[id].(processed := s.logs[id].processed || (m in s.sent && e == Deliver(m, false)))
      && (!e.Record? ==> t.logs.Keys == s.logs.Keys)
  {
    hide Delivered, QueueConsistent, Dimensional;
    if e.Deliver? {
      if !e.fails && e.message in s.sent {
        DeliveryProcesses(c, s, e.message, id);
      }
    } else {
      OtherStepsKeepLogs(c, s, e, id);
    }
  }

  lemma {:induction false} RunProcesses(c: Config, s: State, events: seq<Event>, id: int)
    requires Dimensional(c, s) && QueueConsistent(s) && id in s.logs
    ensures
      var t, m := Run(c, s, events), Message(s.logs[id].user, id);
      && id in t.logs
      && t.logs[id] ==
         s.logs[id].(processed := s.logs[id].processed || (m in s.sent && DeliveredIn(events, m)))
    decreases |events|
  {
    hide Dimensional, Step, DeliveredIn, QueueConsistent;
    if events != [] {
      StepDimensional(c, s, events[0]);
      StepProcesses(c, s, events[0], id);
      RunProcesses(c, Step(c, s, events[0]), events[1..], id);
      DeliveredInSplit(events, Message(s.logs[id].user, id));
    } else {
      NothingDelivered(Message(s.logs[id].user, id));
    }
  }

  lemma NothingDelivered(m: Message)
    ensures !DeliveredIn([], m)
  {
  }

  lemma DeliveredInSplit(events: seq<Event>, m: Message)
    requires events != []
    ensures DeliveredIn(events, m) <==> events[0] == Deliver(m, false) || DeliveredIn(events[1..], m)
  {
    if DeliveredIn(events[1..], m) {
      var i :| 0 <= i < |events[1..]| && events[1..][i] == Deliver(m, false);
      assert events[i + 1] == Deliver(m, false);
    }
    if DeliveredIn(events, m) && events[0] != Deliver(m, false) {
      var i :| 0 <= i < |events| && events[i] == Deliver(m, false);
      assert events[1..][i - 1] == Deliver(m, false);
    }
  }

  ghost predicate RecordsNothing(events: seq<Event>) {
    forall i :: 0 <= i < |events| ==> !events[i].Record?
  }

  lemma {:induction false} RunKeys(c: Config, s: State, events: seq<Event>)
    requires Dimensional(c, s) && RecordsNothing(events)
    ensures Run(c, s, events).logs.Keys == s.logs.Keys
    decreases |events|
  {
    hide Step, Dimensional;
    if events != [] {
      StepDimensional(c, s, events[0]);
      StepKeys(c, s, events[0]);
      RunKeys(c, Step(c, s, events[0]), events[1..]);
    }
  }

  lemma StepKeys(c: Config, s: State, e: Event)
    requires Dimensional(c, s) && !e.Record?
    ensures Step(c, s, e).logs.Keys == s.logs.Keys
  {
    hide Step, Dimensional;
    match e
    case Deliver(m, fails) => DeliveryKeys(c, s, m, fails);
    case _ => LogsUntouched(c, s, e);
  }

  lemma DeliveryKeys(c: Config, s: State, m: Message, fails: bool)
    requires Dimensional(c, s)
    ensures Step(c, s, Deliver(m, fails)).logs.Keys == s.logs.Keys
  {
    hide UpdatedVector, Dimensional;
  }

  lemma ProcessedAfter(c: Config, s: State, es: seq<Event>, fs: seq<Event>, user: int)
    requires Dimensional(c, s) && QueueConsistent(s) && RecordsNothing(es) && RecordsNothing(fs)
    requires forall m :: m in s.sent ==> (DeliveredIn(es, m) <==> DeliveredIn(fs, m))
    ensures ProcessedOf(Run(c, s, es), user) == ProcessedOf(Run(c, s, fs), user)
  {
    hide Dimensional;
    RunKeys(c, s, es);
    RunKeys(c, s, fs);
    var t, r := Run(c, s, es), Run(c, s, fs);
    forall id
      ensures id in ProcessedOf(t, user) <==> id in ProcessedOf(r, user)
    {
      assert id in t.logs.Keys <==> id in s.logs.Keys;
      assert id in r.logs.Keys <==> id in s.logs.Keys;
      if id in s.logs {
        RunProcesses(c, s, es, id);
        RunProcesses(c, s, fs, id);
      }
    }
  }

  // Only which messages get through matters to the counts: not their order, not how often each is delivered,
  // not the failures and not the batches in between.
  lemma CountsIgnoreOrder(c: Config, s: State, es: seq<Event>, fs: seq<Event>, user: int)
    requires CV.IsRoot(c.root) && Consistent(c, s) && RecordsNothing(es) && RecordsNothing(fs)
    requires forall m :: m in s.sent ==> (DeliveredIn(es, m) <==> DeliveredIn(fs, m))
    ensures PreferenceOf(Run(c, s, es), user).count == PreferenceOf(Run(c, s, fs), user).count
  {
    ProcessedAfter(c, s, es, fs, user);
    RunConsistent(c, s, es);
    RunConsistent(c, s, fs);
    hide Dimensional, CV.IsRoot, ProcessedOf, PreferencesConsistent, EligibleCounted, QueueConsistent;
    assert CountsMatch(Run(c, s, es)) && CountsMatch(Run(c, s, fs));
  }

  // A message delivered once changes nothing when it comes again, whatever happened in between.
  lemma RedeliveryIgnored(c: Config, s: State, events: seq<Event>, m: Message, fails: bool)
    requires Consistent(c, s) && m in s.sent && DeliveredIn(events, m)
    ensures var t := Run(c, s, events); Step(c, t, Deliver(m, fails)) == t
  {
    RunProcesses(c, s, events, m.log);
  }

  // ----- what the vector has learned

  // The actions a run applies to the user's vector, in delivery order.
  function Applied(c: Config, s: State, events: seq<Event>, user: int): seq<CV.Action>
    requires Dimensional(c, s)
    decreases |events|
  {
    if events == [] then []
    else
      StepDimensional(c, s, events[0]);
      AppliedBy(s, events[0], user) + Applied(c, Step(c, s, events[0]), events[1..], user)
  }

  function AppliedBy(s: State, e: Event, user: int): seq<CV.Action> {
    if e.Deliver? && !e.fails && e.message in s.sent && e.message.user == user && Applies(s, e.message)
    then [ActionOf(s, e.message)]
    else []
  }

  ghost predicate NotSaved(events: seq<Event>, user: int) {
    forall i :: 0 <= i < |events| && events[i].BatchWrite? ==> events[i].result.user != user
  }

  lemma DeliveredVector(c: Config, s: State, m: Message, user: int)
    requires Dimensional(c, s)
    ensures PreferenceOf(Delivered(c, s, m), user).vector ==
            if m.user == user && Applies(s, m) then UpdatedVector(c, s, m) else PreferenceOf(s, user).vector
  {
    hide Dimensional, CV.ApplyIncremental;
  }

  lemma BatchKeepsVector(c: Config, s: State, e: Event, user: int)
    requires Dimensional(c, s) && !e.Deliver? && (e.BatchWrite? ==> e.result.user != user)
    ensures PreferenceOf(Step(c, s, e), user).vector == PreferenceOf(s, user).vector
  {
    hide Step, Dimensional;
    match e
    case BatchWrite(r) => WriteKeepsOther(c, s, r, user);
    case _ => OthersKeepPreferences(c, s, e);
  }

  lemma OthersKeepPreferences(c: Config, s: State, e: Event)
    requires Dimensional(c, s) && !e.Deliver? && !e.BatchWrite?
    ensures Step(c, s, e).preferences == s.preferences
  {
    hide VectorForUser, Dimensional, Delivered, AboveThreshold, WithVector;
  }

  lemma WriteKeepsOther(c: Config, s: State, r: Computed, user: int)
    requires Dimensional(c, s) && r.user != user
    ensures PreferenceOf(Step(c, s, BatchWrite(r)), user) == PreferenceOf(s, user)
  {
    hide VectorForUser, Dimensional, Delivered, AboveThreshold;
  }

  lemma StepLearns(c: Config, s: State, e: Event, user: int, history: seq<CV.Action>)
    requires Dimensional(c, s) && CV.OfDimension(history, c.dimension)
    requires PreferenceOf(s, user).vector == CV.After(c.root, history, c.dimension)
    requires e.BatchWrite? ==> e.result.user != user
    ensures CV.OfDimension(history + AppliedBy(s, e, user), c.dimension)
    ensures PreferenceOf(Step(c, s, e), user).vector ==
            CV.After(c.root, history + AppliedBy(s, e, user), c.dimension)
  {
    hide Dimensional, Applies, Delivered, VectorForUser, AboveThreshold, CV.After, CV.OfDimension, CV.ApplyIncremental;
    if e.Deliver? {
      DeliveredVector(c, s, e.message, user);
    } else {
      BatchKeepsVector(c, s, e, user);
    }
    if AppliedBy(s, e, user) == [] {
      assert history + [] == history;
    } else {
      OneMoreLearned(c, s, e.message, history);
    }
  }

  lemma OneMoreLearned(c: Config, s: State, m: Message, history: seq<CV.Action>)
    requires Dimensional(c, s) && CV.OfDimension(history, c.dimension) && Applies(s, m)
    requires PreferenceOf(s, m.user).vector == CV.After(c.root, history, c.dimension)
    ensures CV.OfDimension(history + [ActionOf(s, m)], c.dimension)
    ensures UpdatedVector(c, s, m) == CV.After(c.root, history + [ActionOf(s, m)], c.dimension)
  {
    hide CV.ApplyIncremental;
    var more := history + [ActionOf(s, m)];
    assert more[..|more| - 1] == history;
  }

  // Away from the batch, a user's vector is the incremental vector of the actions delivered from the tenth on.
  lemma {:induction false} VectorIsLearned(c: Config, s: State, events: seq<Event>, user: int,
                                           history: seq<CV.Action>)
    requires Dimensional(c, s) && CV.OfDimension(history, c.dimension) && NotSaved(events, user)
    requires PreferenceOf(s, user).vector == CV.After(c.root, history, c.dimension)
    ensures CV.OfDimension(history + Applied(c, s, events, user), c.dimension)
    ensures PreferenceOf(Run(c, s, events), user).vector ==
            CV.After(c.root, history + Applied(c, s, events, user), c.dimension)
    decreases |events|
  {
    hide AppliedBy, Step, Dimensional, PreferenceOf, CV.After, CV.OfDimension;
    if events == [] {
      assert history + Applied(c, s, events, user) == history;
    } else {
      StepDimensional(c, s, events[0]);
      var first, later := AppliedBy(s, events[0], user), Applied(c, Step(c, s, events[0]), events[1..], user);
      StepLearns(c, s, events[0], user, history);
      VectorIsLearned(c, Step(c, s, events[0]), events[1..], user, history + first);
      assert (history + first) + later == history + (first + later);
    }
  }

  // ----- a batch reads, then writes

  // The two steps with nothing in between.
  function BatchSaved(c: Config, s: State, user: int, now: real): (t: State)
    requires Dimensional(c, s) && user in s.preferences
    ensures Dimensional(c, t)
  {
    VectorForUserDimension(c, s, user, now);
    s.(preferences := WithVector(s.preferences, user, VectorForUser(c, s, user, now)))
  }

  lemma WriteStep(c: Config, s: State, r: Computed)
    requires Dimensional(c, s) && r in s.computed && r.user in s.preferences
    ensures
      Step(c, s, BatchWrite(r)) ==
      s.(computed := s.computed - multiset{r}, preferences := WithVector(s.preferences, r.user, r.vector))
  {
    hide Dimensional;
  }

  lemma ReadThenWrite(c: Config, s: State, user: int, now: real)
    requires Dimensional(c, s) && user in s.preferences && user in s.eligible
    ensures Dimensional(c, Step(c, s, BatchRead(user, now)))
    ensures
      var result := Computed(user, VectorForUser(c, s, user, now));
      Step(c, Step(c, s, BatchRead(user, now)), BatchWrite(result)) == BatchSaved(c, s, user, now)
  {
    StepDimensional(c, s, BatchRead(user, now));
    hide VectorForUser, Dimensional;
    var result := Computed(user, VectorForUser(c, s, user, now));
    assert s.computed + multiset{result} - multiset{result} == s.computed;
  }

  lemma ComputedIsThere(c: Config, s: State, user: int, now: real)
    requires Dimensional(c, s) && user in s.preferences && user in s.eligible
    ensures
      var t := Step(c, s, BatchRead(user, now));
      && Dimensional(c, t) && user in t.preferences
      && Computed(user, VectorForUser(c, s, user, now)) in t.computed
  {
    StepDimensional(c, s, BatchRead(user, now));
    hide VectorForUser, Dimensional;
  }

  ghost predicate NotWritten(events: seq<Event>, result: Computed) {
    forall i :: 0 <= i < |events| ==> events[i] != BatchWrite(result)
  }

  lemma StepKeepsComputed(c: Config, s: State, e: Event, result: Computed)
    requires Dimensional(c, s) && result in s.computed && result.user in s.preferences && e != BatchWrite(result)
    ensures var t := Step(c, s, e); result in t.computed && result.user in t.preferences
  {
    hide VectorForUser, UpdatedVector, Dimensional;
  }

  lemma {:induction false} RunKeepsComputed(c: Config, s: State, events: seq<Event>, result: Computed)
    requires Dimensional(c, s) && result in s.computed && result.user in s.preferences && NotWritten(events, result)
    ensures var t := Run(c, s, events); result in t.computed && result.user in t.preferences
    decreases |events|
  {
    hide Step, Dimensional;
    if events != [] {
      StepDimensional(c, s, events[0]);
      StepKeepsComputed(c, s, events[0], result);
      RunKeepsComputed(c, Step(c, s, events[0]), events[1..], result);
    }
  }

  /** A batch writes the vector of the logs it has read, whatever is recorded, delivered or saved between its two steps:
  an update delivered in between is overwritten, while its action stays counted. */
  lemma WriteForgets(c: Config, s: State, events: seq<Event>, user: int, now: real)
    requires Dimensional(c, s) && user in s.preferences && user in s.eligible
    requires NotWritten(events, Computed(user, VectorForUser(c, s, user, now)))
    ensures Dimensional(c, Step(c, s, BatchRead(user, now)))
    ensures
      var result := Computed(user, VectorForUser(c, s, user, now));
      var before := Run(c, Step(c, s, BatchRead(user, now)), events);
      var after := Step(c, before, BatchWrite(result));
      && PreferenceOf(after, user).vector == VectorForUser(c, s, user, now)
      && PreferenceOf(after, user).count == PreferenceOf(before, user).count
      && after.logs == before.logs
  {
    hide VectorForUser, Dimensional, Run;
    StepDimensional(c, s, BatchRead(user, now));
    RunKeepsComputed(c, Step(c, s, BatchRead(user, now)), events, Computed(user, VectorForUser(c, s, user, now)));
  }

  // ----- logs the vector counts twice

  function Without(s: State, id: int): State {
    s.(logs := s.logs - {id})
  }

  lemma SumOfOneMore(f: CV.Log -> real, logs: seq<CV.Log>, log: CV.Log)
    ensures CV.SumOf(f, logs + [log]) == CV.SumOf(f, logs) + f(log)
  {
    assert (logs + [log])[..|logs|] == logs;
  }

  // A log takes part in a batch sum exactly when it is recent, processed or not.
  lemma {:induction false} RecentLogsWithout(s: State, user: int, now: real, bound: nat, id: int, f: CV.Log -> real)
    requires 0 <= id
    ensures CV.SumOf(f, RecentLogs(s, user, now, bound)) ==
            CV.SumOf(f, RecentLogs(Without(s, id), user, now, bound)) +
            if id < bound && Recent(s, user, id, now) then f(AsLog(s, s.logs[id])) else 0.0
  {
    hide CV.SumOf, AsLog, Recent, Without;
    if bound > 0 {
      var last := bound - 1;
      RecentLogsWithout(s, user, now, last, id, f);
      RecentWithout(s, user, last, id, now);
      RecentHere(s, user, last, now);
      if Recent(s, user, last, now) {
        SumOfOneMore(f, RecentLogs(s, user, now, last), AsLog(s, s.logs[last]));
        SumOfOneMore(f, RecentLogs(Without(s, id), user, now, last), AsLog(s, s.logs[last]));
      }
    } else {
      NoLogsNoSum(f);
    }
  }

  lemma RecentHere(s: State, user: int, id: int, now: real)
    ensures Recent(s, user, id, now) ==> id in s.logs
  {
  }

  lemma RecentWithout(s: State, user: int, last: int, id: int, now: real)
    ensures Recent(Without(s, id), user, last, now) <==> Recent(s, user, last, now) && last != id
    ensures last in Without(s, id).logs ==> last in s.logs && Without(s, id).logs[last] == s.logs[last]
    ensures Recent(Without(s, id), user, last, now) ==>
              last in Without(s, id).logs && AsLog(Without(s, id), s.logs[last]) == AsLog(s, s.logs[last])
  {
  }

  lemma NoLogsNoSum(f: CV.Log -> real)
    ensures CV.SumOf(f, []) == 0.0
  {
  }

  // The sum a batch normalises for the user.
  function TotalForUser(c: Config, s: State, user: int, now: real): (r: CV.Vector)
    requires Dimensional(c, s)
    ensures |r| == c.dimension
  {
    RecentLogsDimension(c, s, user, now, s.nextLog);
    CV.Total(RecentLogs(s, user, now, s.nextLog), Some(c.decay), now, c.dimension)
  }

  // How strongly a batch counts the log: by its decay, or not at all.
  function BatchStrength(c: Config, s: State, user: int, id: int, now: real): real {
    if Recent(s, user, id, now) then CV.DecayOf(c.decay, s.logs[id].createdAt, now) else 0.0
  }

  lemma TotalIsSum(c: Config, s: State, user: int, now: real, x: nat)
    requires Dimensional(c, s) && x < c.dimension
    ensures TotalForUser(c, s, user, now)[x] ==
            CV.SumOf(CV.ShareAt(Some(c.decay), now, x), RecentLogs(s, user, now, s.nextLog))
  {
    hide CV.Total, CV.SumOf, RecentLogs, CV.ShareAt;
    RecentLogsDimension(c, s, user, now, s.nextLog);
    CV.TotalIsShares(RecentLogs(s, user, now, s.nextLog), Some(c.decay), now, c.dimension, x);
  }

  lemma ShareOfLog(c: Config, s: State, row: LogRow, now: real, x: nat)
    requires row.place in s.features && x < |s.features[row.place]|
    ensures CV.ShareAt(Some(c.decay), now, x)(AsLog(s, row)) ==
            row.weight * CV.DecayOf(c.decay, row.createdAt, now) * s.features[row.place][x]
  {
    hide CV.DecayOf;
  }

  lemma TotalWithout(c: Config, s: State, user: int, now: real, id: int, x: nat)
    requires Dimensional(c, s) && 0 <= id < s.nextLog && id in s.logs && s.logs[id].place in s.features
    requires x < c.dimension
    ensures
      var row, p := s.logs[id], s.features[s.logs[id].place][x];
      && Dimensional(c, Without(s, id))
      && TotalForUser(c, s, user, now)[x] ==
         TotalForUser(c, Without(s, id), user, now)[x] + row.weight * BatchStrength(c, s, user, id, now) * p
  {
    hide TotalForUser, CV.SumOf, CV.ShareAt, CV.DecayOf, RecentLogs, Recent, AsLog;
    var row := s.logs[id];
    TotalIsSum(c, s, user, now, x);
    TotalIsSum(c, Without(s, id), user, now, x);
    RecentLogsWithout(s, user, now, s.nextLog, id, CV.ShareAt(Some(c.decay), now, x));
    ShareOfLog(c, s, row, now, x);
    NothingTimes(row.weight, s.features[row.place][x]);
  }

  lemma NothingTimes(w: real, p: real)
    ensures w * 0.0 * p == 0.0
  {
  }

  // A sum divided by one norm, an addition, and a division by the next norm.
  lemma Regroup(rest: real, w: real, e: real, p: real, i: real)
    ensures i * (rest + w * e * p) + w * p == i * rest + (i * e + 1.0) * (w * p)
  {
    CV.Distribute(i, rest, w * e * p);
    assert w * e * p == e * (w * p);
    assert i * (e * (w * p)) == (i * e) * (w * p);
  }

  // A delivery after a batch save of the same user.
  function SavedThenDelivered(c: Config, s: State, m: Message, now: real): State
    requires Dimensional(c, s) && m.user in s.preferences
  {
    Step(c, BatchSaved(c, s, m.user, now), Deliver(m, false))
  }

  lemma SavedThenDeliveredVector(c: Config, s: State, m: Message, now: real)
    requires Consistent(c, s) && m in s.sent && m.user in s.preferences && ShouldBeS3(PreferenceOf(s, m.user).count)
    requires !s.logs[m.log].processed && s.logs[m.log].place in s.features
    ensures
      var row, after := s.logs[m.log], SavedThenDelivered(c, s, m, now);
      && m.log in after.logs && after.logs[m.log].processed
      && PreferenceOf(after, m.user).count == PreferenceOf(s, m.user).count + 1
      && PreferenceOf(after, m.user).vector ==
         CV.ApplyIncremental(c.root, VectorForUser(c, s, m.user, now), CV.Action(row.weight, s.features[row.place]))
  {
    VectorForUserDimension(c, s, m.user, now);
    hide VectorForUser, CV.ApplyIncremental, CountsMatch, PreferencesConsistent, ComputedConsistent;
  }

  // Who is eligible has a preference above the threshold.
  lemma EligibleIsCounted(c: Config, s: State, user: int)
    requires Consistent(c, s) && user in s.eligible
    ensures user in s.preferences && ShouldBeS3(PreferenceOf(s, user).count)
  {
    assert ShouldBeS3(PreferenceOf(s, user).count);
  }

  lemma LogOfMessage(c: Config, s: State, m: Message)
    requires Consistent(c, s) && m in s.sent
    ensures Dimensional(c, s) && m.log in s.logs && 0 <= m.log < s.nextLog
  {
  }

  lemma BatchIsNormalised(c: Config, s: State, user: int, now: real)
    requires Dimensional(c, s)
    ensures VectorForUser(c, s, user, now) == CV.Normalise(c.root, TotalForUser(c, s, user, now))
    ensures VectorForUser(c, s, user, now).Some? ==> |VectorForUser(c, s, user, now).value| == c.dimension
  {
  }

  lemma ReciprocalPositive(n: real)
    requires n >= CV.EPSILON
    ensures 1.0 / n > 0.0
  {
  }

  // One component of an incremental update.
  lemma AddedComponent(c: Config, v: CV.Vector, w: real, p: CV.Vector, x: nat)
    requires |v| == |p| && x < |v| && CV.ApplyIncremental(c.root, Some(v), CV.Action(w, p)).Some?
    ensures
      var sum := CV.AddScaled(v, w, p);
      && CV.Norm(c.root, sum) >= CV.EPSILON
      && CV.ApplyIncremental(c.root, Some(v), CV.Action(w, p)).value[x] ==
         (1.0 / CV.Norm(c.root, sum)) * (v[x] + w * p[x])
  {
    CV.UnitComponent(c.root, CV.AddScaled(v, w, p), x);
  }

  /** The batch sums recent logs whether processed or not, and a delivery adds its log whatever the batch did: a log
  whose user a batch has saved before its delivery enters the vector with strength decay / norm and once more with
  strength 1. So it counts twice exactly when it is recent at the batch; in the count it figures once. */
  lemma LogCountsTwice(c: Config, s: State, m: Message, now: real, x: nat)
    requires CV.IsExp(c.decay.exp) && Consistent(c, s) && x < c.dimension
    requires m in s.sent && !s.logs[m.log].processed && s.logs[m.log].place in s.features
    requires m.user in s.eligible && m.user in s.preferences && VectorForUser(c, s, m.user, now).Some?
    requires PreferenceOf(SavedThenDelivered(c, s, m, now), m.user).vector.Some?
    ensures
      var row, p := s.logs[m.log], s.features[s.logs[m.log].place];
      var e := BatchStrength(c, s, m.user, m.log, now);
      var total, rest := TotalForUser(c, s, m.user, now), TotalForUser(c, Without(s, m.log), m.user, now);
      var after := PreferenceOf(SavedThenDelivered(c, s, m, now), m.user);
      var i := 1.0 / CV.Norm(c.root, total);
      var j := 1.0 / CV.Norm(c.root, CV.AddScaled(VectorForUser(c, s, m.user, now).value, row.weight, p));
      && after.vector.value[x] == j * (i * rest[x] + (i * e + 1.0) * (row.weight * p[x]))
      && (e > 0.0 <==> Recent(s, m.user, m.log, now))
      && e >= 0.0 && i > 0.0 && j > 0.0
      && after.count == PreferenceOf(s, m.user).count + 1
  {
    hide VectorForUser, TotalForUser, BatchStrength, Consistent, SavedThenDelivered, CV.IsExp, Without, CV.Norm,
      CV.AddScaled, Recent;
    LogOfMessage(c, s, m);
    EligibleIsCounted(c, s, m.user);
    var row, p := s.logs[m.log], s.features[s.logs[m.log].place];
    var total, batch := TotalForUser(c, s, m.user, now), VectorForUser(c, s, m.user, now);
    BatchIsNormalised(c, s, m.user, now);
    SavedThenDeliveredVector(c, s, m, now);
    TotalWithout(c, s, m.user, now, m.log, x);
    StrengthPositive(c, s, m.user, m.log, now);
    CV.UnitComponent(c.root, total, x);
    ReciprocalPositive(CV.Norm(c.root, total));
    AddedComponent(c, batch.value, row.weight, p, x);
    ReciprocalPositive(CV.Norm(c.root, CV.AddScaled(batch.value, row.weight, p)));
    var rest := TotalForUser(c, Without(s, m.log), m.user, now);
    Regroup(rest[x], row.weight, BatchStrength(c, s, m.user, m.log, now), p[x], 1.0 / CV.Norm(c.root, total));
  }

  lemma StrengthPositive(c: Config, s: State, user: int, id: int, now: real)
    requires CV.IsExp(c.decay.exp)
    ensures BatchStrength(c, s, user, id, now) >= 0.0
    ensures BatchStrength(c, s, user, id, now) > 0.0 <==> Recent(s, user, id, now)
  {
  }

  lemma {:induction false} RecentLogsKept(s: State, t: State, user: int, now: real, bound: nat)
    requires s.features == t.features && s.logs.Keys == t.logs.Keys
    requires forall id :: id in s.logs ==> t.logs[id] == s.logs[id].(processed := t.logs[id].processed)
    ensures RecentLogs(s, user, now, bound) == RecentLogs(t, user, now, bound)
  {
    if bound > 0 {
      RecentLogsKept(s, t, user, now, bound - 1);
    }
  }

  // It lasts until the user's next save, which is the same whatever deliveries and saves came before it.
  lemma NextSaveForgets(c: Config, s: State, m: Message, now: real, later: real)
    requires Dimensional(c, s) && m.user in s.preferences
    ensures Dimensional(c, SavedThenDelivered(c, s, m, now))
    ensures VectorForUser(c, SavedThenDelivered(c, s, m, now), m.user, later) == VectorForUser(c, s, m.user, later)
  {
    hide RecentLogs, Dimensional, BatchSaved, Step;
    var t := BatchSaved(c, s, m.user, now);
    StepDimensional(c, t, Deliver(m, false));
    SavedThenDeliveredLogs(c, s, m, now);
    RecentLogsKept(s, SavedThenDelivered(c, s, m, now), m.user, later, s.nextLog);
  }

  lemma SavedThenDeliveredLogs(c: Config, s: State, m: Message, now: real)
    requires Dimensional(c, s) && m.user in s.preferences
    ensures
      var t := SavedThenDelivered(c, s, m, now);
      && t.logs.Keys == s.logs.Keys && t.features == s.features && t.nextLog == s.nextLog
      && forall id :: id in s.logs ==> t.logs[id] == s.logs[id].(processed := t.logs[id].processed)
  {
    hide VectorForUser, UpdatedVector, Dimensional, AboveThreshold;
  }

  // ----- the tasks

  // The state after the vectors of `users` have been saved from the logs of s.
  function Saved(c: Config, s: State, users: set<int>, now: real): State
    requires Dimensional(c, s)
  {
    s.(preferences := map u | u in s.preferences ::
         if u in users then s.preferences[u].(vector := VectorForUser(c, s, u, now)) else s.preferences[u])
  }

  lemma {:induction false} RecentLogsSame(s: State, t: State, user: int, now: real, bound: nat)
    requires s.logs == t.logs && s.features == t.features
    ensures RecentLogs(s, user, now, bound) == RecentLogs(t, user, now, bound)
  {
    if bound > 0 {
      RecentLogsSame(s, t, user, now, bound - 1);
    }
  }

  lemma VectorForUserSame(c: Config, s: State, t: State, user: int, now: real)
    requires Dimensional(c, s) && Dimensional(c, t)
    requires s.logs == t.logs && s.features == t.features && s.nextLog == t.nextLog
    ensures VectorForUser(c, s, user, now) == VectorForUser(c, t, user, now)
  {
    RecentLogsSame(s, t, user, now, s.nextLog);
  }

  lemma SavedDimensional(c: Config, s: State, users: set<int>, now: real)
    requires Dimensional(c, s)
    ensures Dimensional(c, Saved(c, s, users, now))
  {
    forall u | u in s.preferences
      ensures VectorForUser(c, s, u, now).Some? ==> |VectorForUser(c, s, u, now).value| == c.dimension
    {
      VectorForUserDimension(c, s, u, now);
    }
  }

  // Saving one more user does not depend on who has been saved before.
  lemma SavedOneMore(c: Config, s: State, users: set<int>, user: int, now: real)
    requires Dimensional(c, s) && user in s.preferences
    ensures Dimensional(c, Saved(c, s, users, now))
    ensures BatchSaved(c, Saved(c, s, users, now), user, now) == Saved(c, s, users + {user}, now)
  {
    hide VectorForUser, Dimensional;
    SavedDimensional(c, s, users, now);
    var t := Saved(c, s, users, now);
    VectorForUserSame(c, s, t, user, now);
  }

  method AnyOf<T(==)>(s: set<T>) returns (x: T)
    requires s != {}
    ensures x in s
  {
    x :| x in s;
  }

  class ActionStore {
    const config: Config
    var logs: map<int, LogRow>
    var nextLog: nat
    var preferences: map<int, Preference>
    var features: map<int, CV.Vector>
    ghost var sent: set<Message>
    ghost var eligible: set<int>
    ghost var computed: multiset<Computed>

    ghost function Abs(): State
      reads this
    {
      State(logs, nextLog, preferences, features, sent, eligible, computed)
    }

    constructor (config: Config)
      ensures this.config == config && Abs() == EMPTY
    {
      this.config := config;
      logs, nextLog, preferences, features := map[], 0, map[], map[];
      sent, eligible, computed := {}, {}, multiset{};
    }

    // The message goes out when the transaction that created the log commits.
    method RecordAction(user: int, place: int, weight: real, createdAt: real) returns (message: Message)
      requires Dimensional(config, Abs())
      modifies this
      ensures message == Message(user, old(nextLog))
      ensures Abs() == Step(config, old(Abs()), Record(user, place, weight, createdAt))
    {
      message := Message(user, nextLog);
      logs := logs[nextLog := LogRow(user, place, weight, createdAt, false)];
      sent := sent + {message};
      nextLog := nextLog + 1;
    }

    // One atomic delivery.
    method UpdateIncremental(userId: int, logId: int)
      requires Dimensional(config, Abs())
      modifies `logs, `preferences
      ensures Abs() == Delivered(config, old(Abs()), Message(userId, logId))
    {
      if logId !in logs || logs[logId].processed {
        return;
      }
      var log := logs[logId];
      if userId !in preferences {
        preferences := preferences[userId := Preference(None, 0)];
      }
      var preference := preferences[userId];
      preference := preference.(count := preference.count + 1);
      if ShouldBeS3(preference.count) {
        if log.place in features {
          var vector := CV.ApplyIncremental(config.root, preference.vector, CV.Action(log.weight, features[log.place]));
          preference := preference.(vector := vector);
        }
      }
      preferences := preferences[userId := preference];
      logs := logs[logId := log.(processed := true)];
    }

    // The first half of a turn of the batch's loop.
    method ReadVector(user: int, now: real) returns (vector: Option<CV.Vector>)
      requires Dimensional(config, Abs()) && user in eligible
      modifies `computed
      ensures vector == VectorForUser(config, old(Abs()), user, now)
      ensures Abs() == Step(config, old(Abs()), BatchRead(user, now))
    {
      var state := State(logs, nextLog, preferences, features, {}, {}, multiset{});
      RecentLogsDimension(config, Abs(), user, now, nextLog);
      RecentLogsSame(state, Abs(), user, now, nextLog);
      var recent := RecentLogs(state, user, now, nextLog);
      var used, skipped;
      vector, used, skipped :=
        CV.ComputeUserContentVector(config.root, recent, Some(config.decay), now, config.dimension);
      computed := computed + multiset{Computed(user, vector)};
    }

    // The second half.
    method WriteVector(user: int, vector: Option<CV.Vector>)
      requires Dimensional(config, Abs()) && user in preferences && Computed(user, vector) in computed
      modifies `preferences, `computed
      ensures Abs() == Step(config, old(Abs()), BatchWrite(Computed(user, vector)))
    {
      hide Dimensional, VectorForUser, Delivered, AboveThreshold, Step;
      WriteStep(config, Abs(), Computed(user, vector));
      preferences := preferences[user := preferences[user].(vector := vector)];
      computed := computed - multiset{Computed(user, vector)};
    }

    // Both halves with nothing in between.
    method SaveVector(user: int, now: real) returns (vector: Option<CV.Vector>)
      requires Dimensional(config, Abs()) && user in preferences && user in eligible
      modifies `preferences, `computed
      ensures vector == VectorForUser(config, old(Abs()), user, now)
      ensures Abs() == BatchSaved(config, old(Abs()), user, now)
    {
      hide VectorForUser, Dimensional, Step, BatchSaved;
      ReadThenWrite(config, Abs(), user, now);
      vector := ReadVector(user, now);
      ComputedIsThere(config, old(Abs()), user, now);
      WriteVector(user, vector);
    }

    // The whole batch with nothing in between: every user above the threshold gets the vector of their logs.
    method RecomputeBatch(now: real) returns (updated: nat, skipped: nat)
      requires Dimensional(config, Abs())
      modifies `preferences, `eligible, `computed
      ensures Abs() == Saved(config, Step(config, old(Abs()), BatchStart), AboveThreshold(old(Abs())), now)
      ensures updated + skipped == |AboveThreshold(old(Abs()))|
    {
      hide VectorForUser, Dimensional, BatchSaved;
      var users := set u | u in preferences && ShouldBeS3(preferences[u].count);
      assert users == AboveThreshold(Abs());
      StepDimensional(config, Abs(), BatchStart);
      eligible := eligible + users;
      ghost var start := Abs();
      var done: set<int> := {};
      updated, skipped := 0, 0;
      while users - done != {}
        invariant done <= users
        invariant Dimensional(config, start) && Dimensional(config, Abs())
        invariant Abs() == Saved(config, start, done, now)
        invariant updated + skipped == |done|
        decreases users - done
      {
        var user := AnyOf(users - done);
        SavedOneMore(config, start, done, user, now);
        SavedDimensional(config, start, done + {user}, now);
        var vector := SaveVector(user, now);
        if vector.None? {
          skipped := skipped + 1;
        } else {
          updated := updated + 1;
        }
        done := done + {user};
      }
      assert done == users;
    }
  }
}
