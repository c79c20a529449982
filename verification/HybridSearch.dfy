/** The hybrid keyword search: candidates from the database, a combined score, a stable descending sort, and a
cache of the sorted ids.

Trigram similarities and cosine distances come from the database and are inputs, as is its order of the places.
Cache keys are the payload texts; their md5 digests are taken to be as distinct as the texts.
 */
module HybridSearch {
  import opened Common
  import opened StableSort
  import opened CacheKey

  const HYBRID_CANDIDATE_LIMIT: nat := 200
  const VEC_WEIGHT: real := 0.7
  const KW_WEIGHT: real := 0.3
  const HYBRID_CACHE_TTL: real := 300.0
  const TRGM_THRESHOLD: real := 0.15

  datatype Place = Place(id: int, active: bool, tags: set<int>)

  datatype VectorField = StyleVector | ContentVector

  /** What a search reads: the places, highest rated first; which names or tags, and which addresses, contain a
  keyword; how similar a name is to it; and how far a place's vector is, for places that have one. */
  datatype Catalog = Catalog(
    places: seq<Place>,
    nameMatch: (string, int) -> bool,
    addressMatch: (string, int) -> bool,
    similarity: (string, int) -> real,
    distance: (VectorField, seq<real>, int) -> Option<real>
  )

  datatype Query = Query(field: VectorField, vector: seq<real>, keyword: string, tags: seq<int>)

  ghost predicate ValidCatalog(c: Catalog) {
    && (forall k, id :: 0.0 <= c.similarity(k, id) <= 1.0)
    && (forall f, v, id :: c.distance(f, v, id).Some? ==> 0.0 <= c.distance(f, v, id).value <= 2.0)
  }

  // ----- candidates

  function Ids(places: seq<Place>, keep: Place -> bool): seq<int> {
    if places == [] then []
    else (if keep(places[0]) then [places[0].id] else []) + Ids(places[1..], keep)
  }

  // Active, with every tag asked for.
  predicate Eligible(p: Place, tags: seq<int>) {
    p.active && forall t :: t in tags ==> t in p.tags
  }

  function ByName(c: Catalog, q: Query): Place -> bool {
    p => Eligible(p, q.tags) && c.nameMatch(q.keyword, p.id)
  }

  function ByAddress(c: Catalog, q: Query): Place -> bool {
    p => Eligible(p, q.tags) && c.addressMatch(q.keyword, p.id)
  }

  function BySimilarity(c: Catalog, q: Query): Place -> bool {
    p => Eligible(p, q.tags) && c.similarity(q.keyword, p.id) > TRGM_THRESHOLD
  }

  function LeastSimilar(c: Catalog, q: Query): Key {
    id => -c.similarity(q.keyword, id)
  }

  // `exact` tells candidates matched by name or address from those found by similarity alone.
  datatype Candidates = Candidates(ids: seq<int>, exact: bool)

  function FindCandidates(c: Catalog, q: Query): Candidates {
    var named := Top(Ids(c.places, ByName(c, q)), HYBRID_CANDIDATE_LIMIT);
    if named != [] then Candidates(named, true)
    else
      var addressed := Top(Ids(c.places, ByAddress(c, q)), HYBRID_CANDIDATE_LIMIT);
      if addressed != [] then Candidates(addressed, true)
      else Candidates(Top(Sorted(Ids(c.places, BySimilarity(c, q)), LeastSimilar(c, q)), HYBRID_CANDIDATE_LIMIT), false)
  }

  // ----- ranking

  // A place without a vector counts as unrelated, not as opposite.
  function VectorScore(c: Catalog, q: Query, id: int): real {
    var d := c.distance(q.field, q.vector, id);
    if d.Some? then 1.0 - d.value / 2.0 else 0.5
  }

  function KeywordScore(c: Catalog, q: Query, exact: bool, id: int): real {
    var s := c.similarity(q.keyword, id);
    if exact && s < 0.3 then 0.3 else s
  }

  function Score(c: Catalog, q: Query, exact: bool, id: int): real {
    VEC_WEIGHT * VectorScore(c, q, id) + KW_WEIGHT * KeywordScore(c, q, exact, id)
  }

  function WorstFirst(c: Catalog, q: Query, exact: bool): Key {
    id => -Score(c, q, exact, id)
  }

  function Ranking(c: Catalog, q: Query): seq<int> {
    var found := FindCandidates(c, q);
    Sorted(found.ids, WorstFirst(c, q, found.exact))
  }

  // ----- what the ranking is

  lemma ScoreInUnit(c: Catalog, q: Query, exact: bool, id: int)
    requires ValidCatalog(c)
    ensures 0.0 <= Score(c, q, exact, id) <= 1.0
    ensures exact ==> Score(c, q, exact, id) >= 0.09
  {
    assert 0.0 <= VectorScore(c, q, id) <= 1.0;
    assert 0.0 <= KeywordScore(c, q, exact, id) <= 1.0;
  }

  lemma {:induction false} IdsExactly(places: seq<Place>, keep: Place -> bool, id: int)
    ensures id in Ids(places, keep) <==> exists i :: 0 <= i < |places| && places[i].id == id && keep(places[i])
  {
    if places != [] {
      IdsExactly(places[1..], keep, id);
      if id in Ids(places[1..], keep) {
        var i :| 0 <= i < |places[1..]| && places[1..][i].id == id && keep(places[1..][i]);
        assert places[i + 1].id == id;
      }
      if i :| 0 <= i < |places| && places[i].id == id && keep(places[i]) {
        if i > 0 {
          assert places[1..][i - 1].id == id;
        }
      }
    }
  }

  // The i-th place has this id, is active and has all the tags asked for.
  predicate Stands(c: Catalog, q: Query, id: int, i: nat) {
    && i < |c.places|
    && c.places[i].id == id
    && c.places[i].active
    && forall t :: t in q.tags ==> t in c.places[i].tags
  }

  // There is such a place, and its name or a tag of it contains the keyword; or its address does; or its name is
  // similar enough.
  ghost predicate Named(c: Catalog, q: Query, id: int) {
    (exists i: nat :: Stands(c, q, id, i)) && c.nameMatch(q.keyword, id)
  }

  ghost predicate Addressed(c: Catalog, q: Query, id: int) {
    (exists i: nat :: Stands(c, q, id, i)) && c.addressMatch(q.keyword, id)
  }

  ghost predicate Similar(c: Catalog, q: Query, id: int) {
    (exists i: nat :: Stands(c, q, id, i)) && c.similarity(q.keyword, id) > 0.15
  }

  lemma StagesHold(c: Catalog, q: Query, id: int)
    ensures Named(c, q, id) <==> id in Ids(c.places, ByName(c, q))
    ensures Addressed(c, q, id) <==> id in Ids(c.places, ByAddress(c, q))
    ensures Similar(c, q, id) <==> id in Ids(c.places, BySimilarity(c, q))
  {
    StageHolds(c, q, id, ByName(c, q), p => c.nameMatch(q.keyword, p));
    StageHolds(c, q, id, ByAddress(c, q), p => c.addressMatch(q.keyword, p));
    StageHolds(c, q, id, BySimilarity(c, q), p => c.similarity(q.keyword, p) > 0.15);
  }

  lemma StageHolds(c: Catalog, q: Query, id: int, keep: Place -> bool, fits: int -> bool)
    requires forall p: Place :: keep(p) == (Eligible(p, q.tags) && fits(p.id))
    ensures id in Ids(c.places, keep) <==> (exists i: nat :: Stands(c, q, id, i)) && fits(id)
  {
    IdsExactly(c.places, keep, id);
    if i :| 0 <= i < |c.places| && c.places[i].id == id && keep(c.places[i]) {
      assert Stands(c, q, id, i);
    }
    if i: nat :| Stands(c, q, id, i) && fits(id) {
      assert keep(c.places[i]);
    }
  }

  // A match by name or tag rules out the address stage, and either rules out the similarity stage.
  lemma StagesInOrder(c: Catalog, q: Query, id: int)
    requires id in FindCandidates(c, q).ids
    ensures
      || (FindCandidates(c, q).exact && Named(c, q, id))
      || (FindCandidates(c, q).exact && Addressed(c, q, id) && forall x :: !Named(c, q, x))
      || (!FindCandidates(c, q).exact && Similar(c, q, id) && forall x :: !Named(c, q, x) && !Addressed(c, q, x))
    ensures |FindCandidates(c, q).ids| <= 200
  {
    hide Ids, Named, Addressed, Similar, Sorted, ByName, ByAddress, BySimilarity, LeastSimilar;
    forall x
      ensures Named(c, q, x) <==> x in Ids(c.places, ByName(c, q))
      ensures Addressed(c, q, x) <==> x in Ids(c.places, ByAddress(c, q))
    {
      StagesHold(c, q, x);
    }
    StagesHold(c, q, id);
    SortedHolds(Ids(c.places, BySimilarity(c, q)), LeastSimilar(c, q), id);
  }

  // Short of the limit, the stage that applies misses nothing.
  lemma NothingMissed(c: Catalog, q: Query, id: int)
    requires |FindCandidates(c, q).ids| < 200
    ensures
      var ids := FindCandidates(c, q).ids;
      && (Named(c, q, id) ==> id in ids)
      && ((forall x :: !Named(c, q, x)) && Addressed(c, q, id) ==> id in ids)
      && ((forall x :: !Named(c, q, x) && !Addressed(c, q, x)) && Similar(c, q, id) ==> id in ids)
  {
    hide Ids, Named, Addressed, Similar, Sorted, ByName, ByAddress, BySimilarity, LeastSimilar;
    StagesHold(c, q, id);
    SortedHolds(Ids(c.places, BySimilarity(c, q)), LeastSimilar(c, q), id);
    var named, addressed := Ids(c.places, ByName(c, q)), Ids(c.places, ByAddress(c, q));
    if named != [] {
      StagesHold(c, q, named[0]);
    }
    if addressed != [] {
      StagesHold(c, q, addressed[0]);
    }
  }

  lemma SortedHolds(s: seq<int>, key: Key, x: int)
    ensures x in Sorted(s, key) <==> x in s
  {
    SortedIsStable(s, key);
    assert x in multiset(Sorted(s, key)) <==> x in multiset(s);
  }

  /** The result is a rearrangement of the candidates by descending score, candidates of one score in the order the
  database gave them. */
  lemma RankingIsStable(c: Catalog, q: Query)
    requires ValidCatalog(c)
    ensures
      var found, r := FindCandidates(c, q), Ranking(c, q);
      && multiset(r) == multiset(found.ids)
      && (forall i, j :: 0 <= i < j < |r| ==> Score(c, q, found.exact, r[i]) >= Score(c, q, found.exact, r[j]))
      && (forall i :: 0 <= i < |r| ==> 0.0 <= Score(c, q, found.exact, r[i]) <= 1.0)
      && IsStableSort(found.ids, r, WorstFirst(c, q, found.exact))
  {
    var found, r := FindCandidates(c, q), Ranking(c, q);
    SortedIsStable(found.ids, WorstFirst(c, q, found.exact));
    hide FindCandidates, Score, Sorted, WithKey;
    forall i | 0 <= i < |r|
      ensures 0.0 <= Score(c, q, found.exact, r[i]) <= 1.0
    {
      ScoreInUnit(c, q, found.exact, r[i]);
    }
    var key := WorstFirst(c, q, found.exact);
    forall i, j | 0 <= i < j < |r|
      ensures Score(c, q, found.exact, r[i]) >= Score(c, q, found.exact, r[j])
    {
      assert key(r[i]) <= key(r[j]);
    }
  }

  // ----- what the order means

  // A place without a vector is as far as one at distance 1.
  ghost function Far(c: Catalog, q: Query, id: int): real {
    match c.distance(q.field, q.vector, id)
    case Some(distance) => distance
    case None => 1.0
  }

  // Some place matches by name, tag or address.
  ghost predicate Matched(c: Catalog, q: Query) {
    exists id :: Named(c, q, id) || Addressed(c, q, id)
  }

  // Below 0.3, similarities are alike once the search is by match.
  ghost function Alike(c: Catalog, q: Query, id: int): real {
    if Matched(c, q) && c.similarity(q.keyword, id) <= 0.3 then 0.3 else c.similarity(q.keyword, id)
  }

  lemma MatchedIsExact(c: Catalog, q: Query, id: int)
    requires id in FindCandidates(c, q).ids
    ensures FindCandidates(c, q).exact <==> Matched(c, q)
  {
    hide FindCandidates, Named, Addressed, Similar;
    StagesInOrder(c, q, id);
  }

  lemma ScoreTrades(c: Catalog, q: Query, a: int, b: int)
    requires a in FindCandidates(c, q).ids
    ensures
      var exact := FindCandidates(c, q).exact;
      Score(c, q, exact, a) - Score(c, q, exact, b) ==
      0.35 * (Far(c, q, b) - Far(c, q, a)) + 0.3 * (Alike(c, q, a) - Alike(c, q, b))
  {
    hide FindCandidates, Matched;
    MatchedIsExact(c, q, a);
  }

  /** Of two candidates the one stands first whose lead in nearness, at 0.35 the unit of distance, outweighs the other's
  lead in similarity, at 0.3 the unit; and one that stands first is not outweighed. */
  lemma RankingTrades(c: Catalog, q: Query, i: nat, j: nat)
    requires i < |Ranking(c, q)| && j < |Ranking(c, q)| && i != j
    ensures
      var a, b := Ranking(c, q)[i], Ranking(c, q)[j];
      var nearer, likelier := 0.35 * (Far(c, q, b) - Far(c, q, a)), 0.3 * (Alike(c, q, b) - Alike(c, q, a));
      && (nearer > likelier ==> i < j)
      && (i < j ==> nearer >= likelier)
  {
    hide FindCandidates, Score, Sorted, Far, Alike, WithKey;
    var found, r := FindCandidates(c, q), Ranking(c, q);
    var key := WorstFirst(c, q, found.exact);
    SortedIsStable(found.ids, key);
    assert r[i] in multiset(r) && r[j] in multiset(r);
    ScoreTrades(c, q, r[i], r[j]);
    if i < j {
      assert key(r[i]) <= key(r[j]);
    } else {
      assert key(r[j]) <= key(r[i]);
    }
  }

  /** In words: with similarities alike the nearer place comes first, at one distance the more similar one, and 0.1 of
  distance makes up for a similarity t against s exactly when 0.3 * (t - s) is less than 0.035. */
  lemma NearerOrMoreSimilarFirst(c: Catalog, q: Query, i: nat, j: nat)
    requires i < |Ranking(c, q)| && j < |Ranking(c, q)| && i != j
    ensures
      var a, b := Ranking(c, q)[i], Ranking(c, q)[j];
      && (Alike(c, q, a) == Alike(c, q, b) && Far(c, q, a) < Far(c, q, b) ==> i < j)
      && (Far(c, q, a) == Far(c, q, b) && Alike(c, q, a) > Alike(c, q, b) ==> i < j)
      && (Far(c, q, b) == Far(c, q, a) + 0.1 && 0.3 * (Alike(c, q, b) - Alike(c, q, a)) != 0.035 ==>
            (i < j <==> 0.3 * (Alike(c, q, b) - Alike(c, q, a)) < 0.035))
  {
    hide Far, Alike, Ranking;
    RankingTrades(c, q, i, j);
    RankingTrades(c, q, j, i);
  }

  // ----- what the limit leaves out

  // What a stage keeps stands in the order of the places.
  lemma {:induction false} IdsInOrder(places: seq<Place>, keep: Place -> bool, n: nat)
    requires n <= |places|
    ensures Ids(places, keep) == Ids(places[..n], keep) + Ids(places[n..], keep)
  {
    if n > 0 {
      IdsInOrder(places[1..], keep, n - 1);
      assert places[..n][1..] == places[1..][..n - 1] && places[1..][n - 1..] == places[n..];
    } else {
      assert places[0..] == places;
    }
  }

  lemma TopOfSplit<T>(s: seq<T>, t: seq<T>, k: nat)
    ensures |s| >= k ==> Top(s + t, k) == s[..k]
    ensures |s| < k && t != [] ==> t[0] in Top(s + t, k)
  {
    if |s| < k && t != [] {
      assert Top(s + t, k)[|s|] == t[0];
    }
  }

  // A place that fits a stage and is left out comes after all that are taken, of which there are 200.
  lemma LeftOutComesLater(c: Catalog, keep: Place -> bool, i: nat)
    requires i < |c.places| && keep(c.places[i]) && c.places[i].id !in Top(Ids(c.places, keep), 200)
    ensures |Top(Ids(c.places, keep), 200)| == 200
    ensures forall id :: id in Top(Ids(c.places, keep), 200) ==>
              exists j :: 0 <= j < i && c.places[j].id == id && keep(c.places[j])
  {
    var before, rest := Ids(c.places[..i], keep), Ids(c.places[i..], keep);
    IdsInOrder(c.places, keep, i);
    assert rest[0] == c.places[i].id by {
      assert c.places[i..][0] == c.places[i];
    }
    TopOfSplit(before, rest, 200);
    forall id | id in before[..200]
      ensures exists j :: 0 <= j < i && c.places[j].id == id && keep(c.places[j])
    {
      IdsExactly(c.places[..i], keep, id);
      var j :| 0 <= j < i && c.places[..i][j].id == id && keep(c.places[..i][j]);
      assert c.places[..i][j] == c.places[j];
    }
  }

  /** When the matches exceed the limit, those taken are the best rated: a match left out comes after 200 that are
  taken. */
  lemma LimitTakesTheBest(c: Catalog, q: Query, i: nat)
    requires i < |c.places| && Stands(c, q, c.places[i].id, i) && c.places[i].id !in FindCandidates(c, q).ids
    requires
      || c.nameMatch(q.keyword, c.places[i].id)
      || (c.addressMatch(q.keyword, c.places[i].id) && forall x :: !Named(c, q, x))
    ensures
      var ids := FindCandidates(c, q).ids;
      && |ids| == 200
      && forall id :: id in ids ==>
           exists j: nat :: j < i && Stands(c, q, id, j) &&
             if c.nameMatch(q.keyword, c.places[i].id) then c.nameMatch(q.keyword, id)
             else c.addressMatch(q.keyword, id)
  {
    var byName := c.nameMatch(q.keyword, c.places[i].id);
    var keep := if byName then ByName(c, q) else ByAddress(c, q);
    var ids := FindCandidates(c, q).ids;
    StageApplies(c, q, i);
    LeftOutComesLater(c, keep, i);
    forall id | id in ids
      ensures exists j: nat :: j < i && Stands(c, q, id, j) &&
                if byName then c.nameMatch(q.keyword, id) else c.addressMatch(q.keyword, id)
    {
      var j :| 0 <= j < i && c.places[j].id == id && keep(c.places[j]);
      KeptStands(c, q, j);
    }
  }

  lemma KeptStands(c: Catalog, q: Query, j: nat)
    requires j < |c.places|
    ensures
      var p := c.places[j];
      && (ByName(c, q)(p) ==> Stands(c, q, p.id, j) && c.nameMatch(q.keyword, p.id))
      && (ByAddress(c, q)(p) ==> Stands(c, q, p.id, j) && c.addressMatch(q.keyword, p.id))
  {
    var p := c.places[j];
    assert Eligible(p, q.tags) ==> Stands(c, q, p.id, j);
    assert ByName(c, q)(p) ==> Eligible(p, q.tags) && c.nameMatch(q.keyword, p.id);
    assert ByAddress(c, q)(p) ==> Eligible(p, q.tags) && c.addressMatch(q.keyword, p.id);
  }

  lemma StageApplies(c: Catalog, q: Query, i: nat)
    requires i < |c.places| && Stands(c, q, c.places[i].id, i)
    ensures c.nameMatch(q.keyword, c.places[i].id) ==>
              FindCandidates(c, q).ids == Top(Ids(c.places, ByName(c, q)), 200)
    ensures c.addressMatch(q.keyword, c.places[i].id) && (forall x :: !Named(c, q, x)) ==>
              FindCandidates(c, q).ids == Top(Ids(c.places, ByAddress(c, q)), 200)
  {
    hide Ids, Stands, Similar, Sorted, ByName, ByAddress, BySimilarity, LeastSimilar;
    var named := Ids(c.places, ByName(c, q));
    StagesHold(c, q, c.places[i].id);
    if named != [] {
      StagesHold(c, q, named[0]);
    }
  }

  /** And when places found by similarity exceed it, one left out is no more similar than any taken. */
  lemma LimitTakesTheMostSimilar(c: Catalog, q: Query, id: int, taken: int)
    requires Similar(c, q, id) && forall x :: !Named(c, q, x) && !Addressed(c, q, x)
    requires id !in FindCandidates(c, q).ids && taken in FindCandidates(c, q).ids
    ensures c.similarity(q.keyword, id) <= c.similarity(q.keyword, taken)
  {
    var similar, key := Ids(c.places, BySimilarity(c, q)), LeastSimilar(c, q);
    var sorted := Sorted(similar, key);
    hide Ids, Named, Addressed, Similar, Sorted, ByName, ByAddress, BySimilarity, WithKey;
    NoneMatches(c, q);
    StagesHold(c, q, id);
    SortedHolds(similar, key, id);
    SortedIsStable(similar, key);
    var i :| 0 <= i < |sorted| && sorted[i] == id;
    var j :| 0 <= j < |Top(sorted, 200)| && Top(sorted, 200)[j] == taken;
    TopHolds(sorted, 200, i);
    assert key(sorted[j]) <= key(sorted[i]);
  }

  lemma TopHolds<T>(s: seq<T>, k: nat, i: nat)
    requires i < |s|
    ensures i < k ==> s[i] in Top(s, k)
  {
    if i < k {
      assert Top(s, k)[i] == s[i];
    }
  }

  lemma NoneMatches(c: Catalog, q: Query)
    requires forall x :: !Named(c, q, x) && !Addressed(c, q, x)
    ensures FindCandidates(c, q).ids == Top(Sorted(Ids(c.places, BySimilarity(c, q)), LeastSimilar(c, q)), 200)
  {
    hide Ids, Named, Addressed, Similar, Sorted, ByName, ByAddress, BySimilarity, LeastSimilar;
    var named, addressed := Ids(c.places, ByName(c, q)), Ids(c.places, ByAddress(c, q));
    if named != [] {
      StagesHold(c, q, named[0]);
    }
    if addressed != [] {
      StagesHold(c, q, addressed[0]);
    }
  }

  // ----- what the ranking depends on

  lemma {:induction false} IdsSame(places: seq<Place>, f: Place -> bool, g: Place -> bool)
    requires forall p :: f(p) == g(p)
    ensures Ids(places, f) == Ids(places, g)
  {
    if places != [] {
      IdsSame(places[1..], f, g);
    }
  }

  lemma {:induction false} SortedSame(s: seq<int>, f: Key, g: Key)
    requires forall id :: f(id) == g(id)
    ensures Sorted(s, f) == Sorted(s, g)
  {
    if s != [] {
      SortedSame(s[1..], f, g);
      InsertSame(s[0], Sorted(s[1..], f), f, g);
    }
  }

  lemma {:induction false} InsertSame(x: int, s: seq<int>, f: Key, g: Key)
    requires forall id :: f(id) == g(id)
    ensures Insert(x, s, f) == Insert(x, s, g)
  {
    if s != [] {
      InsertSame(x, s[1..], f, g);
    }
  }

  lemma EligibleSame(p: Place, a: seq<int>, b: seq<int>)
    requires forall t :: t in a <==> t in b
    ensures Eligible(p, a) == Eligible(p, b)
  {
    assert forall t :: t in b ==> t in a;
  }

  // Neither the order of the tags nor their repetition matters.
  lemma TagOrderIrrelevant(c: Catalog, q: Query, tags: seq<int>)
    requires forall t :: t in q.tags <==> t in tags
    ensures Ranking(c, q.(tags := tags)) == Ranking(c, q)
  {
    var r := q.(tags := tags);
    forall p
      ensures Eligible(p, q.tags) == Eligible(p, tags)
    {
      EligibleSame(p, q.tags, tags);
    }
    hide Eligible;
    IdsSame(c.places, ByName(c, q), ByName(c, r));
    IdsSame(c.places, ByAddress(c, q), ByAddress(c, r));
    IdsSame(c.places, BySimilarity(c, q), BySimilarity(c, r));
    hide Ids, Sorted;
    var similar := Ids(c.places, BySimilarity(c, q));
    SortedSame(similar, LeastSimilar(c, q), LeastSimilar(c, r));
    assert FindCandidates(c, r) == FindCandidates(c, q);
    var found := FindCandidates(c, q);
    SortedSame(found.ids, WorstFirst(c, q, found.exact), WorstFirst(c, r, found.exact));
  }

  function KeyOf(q: Query): string {
    Payload(q.keyword, q.tags, q.vector)
  }

  ghost predicate WellTyped(q: Query) {
    |q.vector| == if q.field.StyleVector? then 6 else 1024
  }

  // The key leaves the vector field out, but the vector's length gives it away.
  lemma SameKey(c: Catalog, q: Query, r: Query)
    requires WellTyped(q) && WellTyped(r) && KeyOf(q) == KeyOf(r)
    ensures RoundVector(q.vector) == RoundVector(r.vector)
    ensures Ranking(c, q.(vector := r.vector)) == Ranking(c, r)
  {
    PayloadInjective(q.keyword, q.tags, q.vector, r.keyword, r.tags, r.vector);
    hide Payload, Ranking;
    assert |RoundVector(q.vector)| == |q.vector| && |RoundVector(r.vector)| == |r.vector|;
    assert forall t :: t in q.tags <==> t in multiset(q.tags);
    assert forall t :: t in r.tags <==> t in multiset(r.tags);
    TagOrderIrrelevant(c, r, q.tags);
    assert q.(vector := r.vector) == r.(tags := q.tags);
  }

  // ----- loading

  predicate Exists(c: Catalog, id: int) {
    exists i :: 0 <= i < |c.places| && c.places[i].id == id
  }

  // The places loaded for the ids, in the order of the ids; an id whose place is gone is left out.
  function Load(c: Catalog, ids: seq<int>): seq<int> {
    if ids == [] then []
    else Load(c, ids[..|ids| - 1]) + if Exists(c, ids[|ids| - 1]) then [ids[|ids| - 1]] else []
  }

  lemma {:induction false} LoadsAll(c: Catalog, ids: seq<int>)
    requires forall id :: id in ids ==> Exists(c, id)
    ensures Load(c, ids) == ids
  {
    hide Exists, Load;
    LoadStep(c, ids);
    if ids != [] {
      LoadsAll(c, ids[..|ids| - 1]);
      assert ids[|ids| - 1] in ids;
    }
  }

  lemma LoadStep(c: Catalog, ids: seq<int>)
    ensures ids == [] ==> Load(c, ids) == []
    ensures ids != [] && Exists(c, ids[|ids| - 1]) && Load(c, ids[..|ids| - 1]) == ids[..|ids| - 1] ==>
      Load(c, ids) == ids
  {
    hide Exists;
  }

  lemma RankingLoads(c: Catalog, q: Query)
    ensures Load(c, Ranking(c, q)) == Ranking(c, q)
  {
    var found := FindCandidates(c, q);
    forall id | id in Ranking(c, q)
      ensures Exists(c, id)
    {
      SortedHolds(found.ids, WorstFirst(c, q, found.exact), id);
      StagesInOrder(c, q, id);
    }
    hide Ranking;
    LoadsAll(c, Ranking(c, q));
  }

  // ----- the cached search

  datatype Entry = Entry(ids: seq<int>, expires: real)

  class HybridService {
    var cache: map<string, Entry>
    ghost var filledBy: map<string, Query>

    // Every entry is the ranking of the query that filled it.
    ghost predicate Valid(c: Catalog)
      reads this
    {
      forall key :: key in cache ==>
        && key in filledBy
        && WellTyped(filledBy[key])
        && KeyOf(filledBy[key]) == key
        && cache[key].ids == Ranking(c, filledBy[key])
    }

    constructor (c: Catalog)
      ensures Valid(c) && cache == map[] && filledBy == map[]
    {
      cache, filledBy := map[], map[];
    }

    ghost predicate Hits(q: Query, now: real)
      reads this
    {
      KeyOf(q) in cache && now < cache[KeyOf(q)].expires
    }

    /** While the catalog stays the same, the answer is the ranking for the query's own keyword and tags: with its own
    vector when computed, with the vector of the query that filled the entry when found, which agrees to four
    decimals. A found answer for the very same vector is what a computation would give. */
    method GetPlacesHybrid(c: Catalog, q: Query, now: real) returns (places: seq<int>)
      requires Valid(c) && WellTyped(q)
      modifies this
      ensures Valid(c)
      ensures
        var w := if old(Hits(q, now)) then old(filledBy)[KeyOf(q)].vector else q.vector;
        && RoundVector(w) == RoundVector(q.vector)
        && places == Ranking(c, q.(vector := w))
      ensures old(Hits(q, now)) ==> cache == old(cache)
      ensures !old(Hits(q, now)) ==>
                cache == if places == [] then old(cache)
                         else old(cache)[KeyOf(q) := Entry(places, now + 300.0)]
    {
      hide Ranking, Payload, RoundVector;
      var key := KeyOf(q);
      if key in cache && now < cache[key].expires {
        SameKey(c, q, filledBy[key]);
        RankingLoads(c, filledBy[key]);
        return Load(c, cache[key].ids);
      }
      var sorted := Rank(c, q);
      if sorted == [] {
        assert q.(vector := q.vector) == q;
        return [];
      }
      cache := cache[key := Entry(sorted, now + HYBRID_CACHE_TTL)];
      filledBy := filledBy[key := q];
      RankingLoads(c, q);
      assert q.(vector := q.vector) == q;
      return Load(c, sorted);
    }

    // The three stages, the scores and the sort; empty when no stage finds anything.
    method Rank(c: Catalog, q: Query) returns (sorted: seq<int>)
      ensures sorted == Ranking(c, q)
    {
      hide Sorted, Ids;
      var candidates := Top(Ids(c.places, ByName(c, q)), HYBRID_CANDIDATE_LIMIT);
      var exact := true;
      if candidates == [] {
        candidates := Top(Ids(c.places, ByAddress(c, q)), HYBRID_CANDIDATE_LIMIT);
      }
      if candidates == [] {
        candidates := Top(Sorted(Ids(c.places, BySimilarity(c, q)), LeastSimilar(c, q)), HYBRID_CANDIDATE_LIMIT);
        exact := false;
      }
      assert Candidates(candidates, exact) == FindCandidates(c, q);
      sorted := Sorted(candidates, WorstFirst(c, q, exact));
    }
  }
}
