/** Paging over a vector ranking: the tag join repeats a place once per matching tag, the query over-fetches
four rows per wanted place and Python removes the repeats.

The distance-ordered join rows are an input: `rows[i]` is the place id of row i.
 */
module VectorRanking {
  import opened Common
  import opened StableSort

  const OVER_FETCH: nat := 4

  // Each place once, at its first row.
  function Dedup(rows: seq<int>): seq<int> {
    if rows == [] then []
    else
      var before, last := Dedup(rows[..|rows| - 1]), rows[|rows| - 1];
      if last in before then before else before + [last]
  }

  // ----- the operations

  method RemoveRepeats(rows: seq<int>) returns (ids: seq<int>)
    ensures ids == Dedup(rows)
  {
    var seen: set<int> := {};
    ids := [];
    for i := 0 to |rows|
      invariant ids == Dedup(rows[..i])
      invariant forall p :: p in seen <==> p in ids
    {
      assert rows[..i + 1][..i] == rows[..i];
      if rows[i] !in seen {
        seen := seen + {rows[i]};
        ids := ids + [rows[i]];
      }
    }
    assert rows[..|rows|] == rows;
  }

  method CollectVectorIds(rows: seq<int>, limit: Option<nat>) returns (ids: seq<int>)
    ensures ids == Dedup(if limit.Some? then Top(rows, limit.value * OVER_FETCH) else rows)
  {
    var raw := rows;
    if limit.Some? {
      raw := Top(rows, limit.value * OVER_FETCH);
    }
    ids := RemoveRepeats(raw);
  }

  // `total` is the database's own count of rows, distinct under a tag filter.
  method PlaceIdsSortedByVector(rows: seq<int>, hasTagFilter: bool, offset: nat, pageSize: nat)
    returns (pageIds: seq<int>, total: nat)
    ensures total == if hasTagFilter then |Elements(rows)| else |rows|
    ensures pageIds == if hasTagFilter then Page(Dedup(Top(rows, (offset + pageSize) * OVER_FETCH)), offset, pageSize)
                       else Page(rows, offset, pageSize)
  {
    if !hasTagFilter {
      pageIds, total := Page(rows, offset, pageSize), |rows|;
    } else {
      total := |Elements(rows)|;
      var fetchCount := (offset + pageSize) * OVER_FETCH;
      var allIds := RemoveRepeats(Top(rows, fetchCount));
      pageIds := Page(allIds, offset, pageSize);
    }
  }

  // The position of the place in the candidate list, the sort key that restores the ranking.
  function Position(ids: seq<int>, p: int): real {
    if ids == [] || ids[0] == p then 0.0 else 1.0 + Position(ids[1..], p)
  }

  // `loaded` is what `id__in` returns for the candidates: the same ids, in any order.
  function RestoreOrder(candidates: seq<int>, loaded: seq<int>): seq<int> {
    Sorted(loaded, p => Position(candidates, p))
  }

  method PlacesSortedByVector(rows: seq<int>, limit: Option<nat>, loaded: seq<int>) returns (places: seq<int>)
    requires multiset(loaded) == multiset(Dedup(if limit.Some? then Top(rows, limit.value * OVER_FETCH) else rows))
    ensures
      var ids := Dedup(if limit.Some? then Top(rows, limit.value * OVER_FETCH) else rows);
      places == if limit.Some? then Top(ids, limit.value) else ids
  {
    var candidates := CollectVectorIds(rows, limit);
    if candidates == [] {
      return [];
    }
    DedupFacts(if limit.Some? then Top(rows, limit.value * OVER_FETCH) else rows);
    RestoreOrderCorrect(candidates, loaded);
    places := RestoreOrder(candidates, loaded);
    if limit.Some? {
      places := Top(places, limit.value);
    }
  }

  // ----- what Dedup means

  lemma {:induction false} DedupFacts(rows: seq<int>)
    ensures NoRepeats(Dedup(rows))
    ensures forall p :: p in Dedup(rows) <==> p in rows
    ensures |Dedup(rows)| == |Elements(rows)|
  {
    if rows != [] {
      var init, last := rows[..|rows| - 1], rows[|rows| - 1];
      DedupFacts(init);
      assert rows == init + [last];
      OneMoreOf(init, last);
    }
  }

  lemma OneMoreOf(init: seq<int>, last: int)
    ensures forall p :: p in init + [last] <==> p in init || p == last
    ensures |Elements(init + [last])| == |Elements(init)| + if last in init then 0 else 1
  {
    assert Elements(init + [last]) == Elements(init) + {last};
  }

  // Row of the first occurrence.
  ghost function FirstRow(rows: seq<int>, p: int): (i: nat)
    requires p in rows
    ensures i < |rows| && rows[i] == p && p !in rows[..i]
  {
    if rows[0] == p then 0 else 1 + FirstRow(rows[1..], p)
  }

  lemma FirstRowIsFirst(rows: seq<int>, p: int, n: nat)
    requires n <= |rows| && p in rows[..n]
    ensures FirstRow(rows, p) < n
  {
  }

  // The ranking is by nearest row.
  lemma {:induction false} DedupFollowsFirstRows(rows: seq<int>, i: nat, j: nat)
    requires i < j < |Dedup(rows)|
    ensures Dedup(rows)[i] in rows && Dedup(rows)[j] in rows
    ensures FirstRow(rows, Dedup(rows)[i]) < FirstRow(rows, Dedup(rows)[j])
  {
    var n := |rows| - 1;
    var init, ids := rows[..n], Dedup(rows);
    DedupFacts(rows);
    DedupFacts(init);
    FirstRowIsFirst(rows, ids[i], n);
    if j < |Dedup(init)| {
      DedupFollowsFirstRows(init, i, j);
      SameFirstRow(rows, n, ids[i]);
      SameFirstRow(rows, n, ids[j]);
    } else {
      assert ids[j] !in init;
    }
  }

  lemma SameFirstRow(rows: seq<int>, n: nat, p: int)
    requires n <= |rows| && p in rows[..n]
    ensures FirstRow(rows, p) == FirstRow(rows[..n], p)
  {
    var i, j := FirstRow(rows, p), FirstRow(rows[..n], p);
    FirstRowIsFirst(rows, p, n);
    NotBefore(rows[..n], p, j, i);
    NotBefore(rows, p, i, j);
  }

  lemma NotBefore(rows: seq<int>, p: int, first: nat, i: nat)
    requires first <= |rows| && p !in rows[..first]
    requires i < |rows| && rows[i] == p
    ensures i >= first
  {
    var before := rows[..first];
    assert forall k :: 0 <= k < first ==> before[k] == rows[k];
  }

  lemma {:induction false} DedupOfPrefix(rows: seq<int>, n: nat)
    requires n <= |rows|
    ensures Dedup(rows[..n]) <= Dedup(rows)
  {
    if n < |rows| {
      DedupOfPrefix(rows[..|rows| - 1], n);
      assert rows[..|rows| - 1][..n] == rows[..n];
    } else {
      assert rows[..n] == rows;
    }
  }

  lemma TopDedupIsPrefix(rows: seq<int>, n: nat)
    ensures Dedup(Top(rows, n)) <= Dedup(rows)
  {
    if n < |rows| {
      DedupOfPrefix(rows, n);
    }
  }

  // ----- restoring the order of loaded objects

  lemma {:induction false} PositionAt(ids: seq<int>, i: nat)
    requires NoRepeats(ids) && i < |ids|
    ensures Position(ids, ids[i]) == i as real
  {
    if i > 0 {
      PositionAt(ids[1..], i - 1);
    }
  }

  // With distinct elements at distinct keys, the elements with key v are at most one.
  lemma {:induction false} AtMostOneWithKey(s: seq<int>, key: Key, v: real)
    requires NoRepeats(s)
    requires forall a, b :: a in s && b in s && key(a) == key(b) ==> a == b
    ensures forall x :: x in s && key(x) == v ==> WithKey(s, key, v) == [x]
    ensures (forall x :: x in s ==> key(x) != v) ==> WithKey(s, key, v) == []
  {
    if s != [] {
      var rest := s[1..];
      assert s == [s[0]] + rest && s[0] !in rest;
      AtMostOneWithKey(rest, key, v);
      if key(s[0]) == v {
        assert forall x :: x in rest ==> key(x) != v;
      }
    }
  }

  lemma RestoreOrderCorrect(candidates: seq<int>, loaded: seq<int>)
    requires NoRepeats(candidates) && multiset(loaded) == multiset(candidates)
    ensures RestoreOrder(candidates, loaded) == candidates
  {
    var key := p => Position(candidates, p);
    forall i | 0 <= i < |candidates|
      ensures key(candidates[i]) == i as real
    {
      PositionAt(candidates, i);
    }
    SameElements(candidates, loaded);
    forall v
      ensures WithKey(candidates, key, v) == WithKey(loaded, key, v)
    {
      AtMostOneWithKey(candidates, key, v);
      AtMostOneWithKey(loaded, key, v);
    }
    UniqueStableSort(loaded, candidates, key);
  }

  lemma SameElements(a: seq<int>, b: seq<int>)
    requires multiset(a) == multiset(b) && NoRepeats(a)
    ensures forall x :: x in a <==> x in b
    ensures NoRepeats(b)
  {
    assert forall x :: x in a <==> x in multiset(a);
    assert forall x :: x in b <==> x in multiset(b);
    CountAtMostOne(a);
    NoRepeatsFromCounts(b);
  }

  lemma {:induction false} NoRepeatsFromCounts<T>(b: seq<T>)
    requires forall x :: multiset(b)[x] <= 1
    ensures NoRepeats(b)
  {
    if b != [] {
      assert b == [b[0]] + b[1..];
      assert multiset(b) == multiset{b[0]} + multiset(b[1..]);
      assert multiset(b)[b[0]] == 1 + multiset(b[1..])[b[0]];
      forall x
        ensures multiset(b[1..])[x] <= 1
      {
        assert multiset(b[1..])[x] <= multiset(b)[x];
      }
      NoRepeatsFromCounts(b[1..]);
    }
  }

  lemma {:induction false} CountAtMostOne(a: seq<int>)
    requires NoRepeats(a)
    ensures forall x :: multiset(a)[x] <= 1
  {
    if a != [] {
      CountAtMostOne(a[1..]);
      assert a == [a[0]] + a[1..];
      assert a[0] !in multiset(a[1..]);
    }
  }

  // ----- the over-fetch

  ghost predicate AtMostEach(rows: seq<int>, n: nat) {
    forall p :: multiset(rows)[p] <= n
  }

  lemma {:induction false} Pigeonhole<T>(m: multiset<T>, keys: set<T>)
    requires forall p :: p in m ==> p in keys && m[p] <= OVER_FETCH
    ensures |m| <= OVER_FETCH * |keys|
    decreases keys
  {
    if keys == {} {
      assert m == multiset{};
    } else {
      var p :| p in keys;
      var rest := m[p := 0];
      Pigeonhole(rest, keys - {p});
      assert |m| == |rest| + m[p];
      assert |keys| == |keys - {p}| + 1;
    }
  }

  // n rows with at most OVER_FETCH rows a place hold at least n / OVER_FETCH places.
  lemma OverFetchFindsEnough(rows: seq<int>, wanted: nat)
    requires AtMostEach(rows, OVER_FETCH)
    ensures
      var fetched := Top(rows, wanted * OVER_FETCH);
      fetched == rows || |Dedup(fetched)| >= wanted
  {
    var fetched := Top(rows, wanted * OVER_FETCH);
    if fetched != rows {
      DedupFacts(fetched);
      assert rows == fetched + rows[|fetched|..];
      forall p | p in multiset(fetched)
        ensures multiset(fetched)[p] <= OVER_FETCH
      {
        assert multiset(rows)[p] == multiset(fetched)[p] + multiset(rows[|fetched|..])[p];
      }
      Pigeonhole(multiset(fetched), Elements(fetched));
    }
  }

  // A page computed from the over-fetched rows is right exactly when those rows hold enough places.
  lemma PageRightExactlyWhenEnough(rows: seq<int>, offset: nat, size: nat)
    ensures
      var ranking := Dedup(rows);
      var fetched := Dedup(Top(rows, (offset + size) * OVER_FETCH));
      Page(fetched, offset, size) == Page(ranking, offset, size) <==>
      || |ranking| <= offset
      || size == 0
      || |fetched| >= |ranking|
      || |fetched| >= offset + size
  {
    var ranking := Dedup(rows);
    var fetched := Dedup(Top(rows, (offset + size) * OVER_FETCH));
    TopDedupIsPrefix(rows, (offset + size) * OVER_FETCH);
    if |ranking| > offset && size > 0 && |fetched| < |ranking| && |fetched| < offset + size {
      assert |Page(fetched, offset, size)| < |Page(ranking, offset, size)|;
    }
  }

  lemma PageAgreesWithFullRanking(rows: seq<int>, offset: nat, size: nat)
    requires AtMostEach(rows, OVER_FETCH)
    ensures Page(Dedup(Top(rows, (offset + size) * OVER_FETCH)), offset, size) == Page(Dedup(rows), offset, size)
  {
    hide Dedup, Top, Page, AtMostEach;
    OverFetchFindsEnough(rows, offset + size);
    if Top(rows, (offset + size) * OVER_FETCH) != rows {
      PageRightExactlyWhenEnough(rows, offset, size);
    }
  }

  lemma LimitAgreesWithFullRanking(rows: seq<int>, limit: nat)
    requires AtMostEach(rows, OVER_FETCH)
    ensures Top(Dedup(Top(rows, limit * OVER_FETCH)), limit) == Top(Dedup(rows), limit)
  {
    OverFetchFindsEnough(rows, limit);
    TopDedupIsPrefix(rows, limit * OVER_FETCH);
  }

  // The page at the offset, computed from the rows fetched for it.
  function FetchedPage(rows: seq<int>, offset: nat, size: nat): seq<int> {
    Page(Dedup(Top(rows, (offset + size) * OVER_FETCH)), offset, size)
  }

  // The first n pages, each of `size`, one after the other.
  ghost function Pages(rows: seq<int>, size: nat, n: nat): seq<int> {
    if n == 0 then [] else Pages(rows, size, n - 1) + FetchedPage(rows, PageOffset(size, n - 1), size)
  }

  // Page number n starts at n * size.
  function PageOffset(size: nat, n: nat): nat {
    if n == 0 then 0 else PageOffset(size, n - 1) + size
  }

  lemma {:induction false} PageOffsetIsProduct(size: nat, n: nat)
    ensures PageOffset(size, n) == n * size
  {
    if n > 0 {
      PageOffsetIsProduct(size, n - 1);
    }
  }

  lemma {:induction false} PagesAreTop(rows: seq<int>, size: nat, n: nat)
    requires AtMostEach(rows, OVER_FETCH)
    ensures Pages(rows, size, n) == Top(Dedup(rows), PageOffset(size, n))
  {
    hide FetchedPage, Dedup, AtMostEach;
    if n > 0 {
      PagesAreTop(rows, size, n - 1);
      NextPage(rows, PageOffset(size, n - 1), size);
    }
  }

  // A page continues the ranking where the pages before it end.
  lemma NextPage(rows: seq<int>, offset: nat, size: nat)
    requires AtMostEach(rows, OVER_FETCH)
    ensures Top(Dedup(rows), offset) + FetchedPage(rows, offset, size) == Top(Dedup(rows), offset + size)
  {
    hide Dedup, AtMostEach, Page, Top;
    PageAgreesWithFullRanking(rows, offset, size);
    TopThenPage(Dedup(rows), offset, size);
  }

  lemma TopThenPage(s: seq<int>, offset: nat, size: nat)
    ensures Top(s, offset) + Page(s, offset, size) == Top(s, offset + size)
  {
  }

  // Successive pages are the ranking cut in pieces: nothing missing, nothing twice, `total` entries in all.
  lemma PagesPartitionTheRanking(rows: seq<int>, size: nat, n: nat)
    requires AtMostEach(rows, OVER_FETCH)
    ensures Pages(rows, size, n) <= Dedup(rows) && NoRepeats(Pages(rows, size, n))
    ensures n * size >= |Elements(rows)| ==>
              Pages(rows, size, n) == Dedup(rows) && |Pages(rows, size, n)| == |Elements(rows)|
  {
    DedupFacts(rows);
    PagesAreTop(rows, size, n);
    PageOffsetIsProduct(size, n);
  }

  // ----- where the bound of four comes from

  // The rows of a tag join: one per place and matching tag.
  type JoinRow = (int, int)

  function PlacesOf(join: seq<JoinRow>): seq<int> {
    seq(|join|, i requires 0 <= i < |join| => join[i].0)
  }

  ghost function TagsOf(join: seq<JoinRow>, p: int): set<int> {
    set row | row in join && row.0 == p :: row.1
  }

  lemma {:induction false} RowsAreTags(join: seq<JoinRow>, p: int)
    requires NoRepeats(join)
    ensures multiset(PlacesOf(join))[p] == |TagsOf(join, p)|
  {
    if join != [] {
      var init, last := join[..|join| - 1], join[|join| - 1];
      RowsAreTags(init, p);
      assert join == init + [last];
      assert PlacesOf(join) == PlacesOf(init) + [last.0];
      if last.0 == p {
        assert TagsOf(join, p) == TagsOf(init, p) + {last.1};
        assert last !in init;
        assert last.1 !in TagsOf(init, p);
      } else {
        assert TagsOf(join, p) == TagsOf(init, p);
      }
    }
  }

  lemma OneRowPerTag(join: seq<JoinRow>, tags: set<int>, p: int)
    requires NoRepeats(join)
    requires forall row :: row in join ==> row.1 in tags
    ensures multiset(PlacesOf(join))[p] <= |tags|
  {
    RowsAreTags(join, p);
    SubsetSize(TagsOf(join, p), tags);
  }

  lemma FourTagsAreSafe(join: seq<JoinRow>, tags: set<int>, offset: nat, size: nat)
    requires NoRepeats(join) && |tags| <= 4
    requires forall row :: row in join ==> row.1 in tags
    ensures
      var rows := PlacesOf(join);
      Page(Dedup(Top(rows, (offset + size) * OVER_FETCH)), offset, size) == Page(Dedup(rows), offset, size)
  {
    forall p
      ensures multiset(PlacesOf(join))[p] <= OVER_FETCH
    {
      OneRowPerTag(join, tags, p);
    }
    PageAgreesWithFullRanking(PlacesOf(join), offset, size);
  }

  lemma TooFewPlacesFetched(rows: seq<int>, offset: nat, size: nat)
    requires size > 0
    requires |Elements(Top(rows, (offset + size) * OVER_FETCH))| <= offset < |Elements(rows)|
    ensures Page(Dedup(Top(rows, (offset + size) * OVER_FETCH)), offset, size) == []
    ensures Page(Dedup(rows), offset, size) != []
  {
    DedupFacts(rows);
    DedupFacts(Top(rows, (offset + size) * OVER_FETCH));
  }

  // Five tags: four places with five rows each fill the twenty rows fetched for the page at offset 4,
  // so the page comes back empty although a fifth place exists.
  lemma FiveTagsLoseAPlace(rows: seq<int>)
    requires |rows| == 21 && forall i :: 0 <= i < 21 ==> rows[i] == i / 5
    ensures Page(Dedup(Top(rows, (4 + 1) * OVER_FETCH)), 4, 1) == []
    ensures Page(Dedup(rows), 4, 1) != []
  {
    assert {0, 1, 2, 3, 4} <= Elements(rows) by {
      assert rows[0] == 0 && rows[5] == 1 && rows[10] == 2 && rows[15] == 3 && rows[20] == 4;
    }
    SubsetSize({0, 1, 2, 3, 4}, Elements(rows));
    assert (4 + 1) * OVER_FETCH == 20;
    SubsetSize(Elements(Top(rows, 20)), {0, 1, 2, 3});
    TooFewPlacesFetched(rows, 4, 1);
  }
}
