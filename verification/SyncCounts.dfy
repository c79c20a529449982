/** What the counters of a run count: for each item handled, what its row, its kind of run and its failures make of it,
and nothing else.
 */
module SyncCounts {
  import opened Common
  import opened PlaceSync
  import opened SyncConvergence
  import opened SyncContents

  // What handling the item counts, in a pass that finds this row.
  ghost function Counted(source: Source, c: Config, pass: int, item: Item, row: Option<Place>): Summary {
    var stored := row.Some? && row.value.contentType == item.contentType;
    if c.kind.Incremental? && item.hidden then
      if stored then EMPTY.(deactivated := 1) else EMPTY
    else if c.kind.Incremental? && stored && !Later(item.modifiedAt, row.value.modifiedAt) then
      EMPTY.(skippedUnchanged := 1)
    else CountedFetched(source, c, pass, item, row)
  }

  ghost function CountedFetched(source: Source, c: Config, pass: int, item: Item, row: Option<Place>): Summary {
    var one := EMPTY.(fetched := 1);
    if item.firstImage.None? then one.(skippedNoImage := 1)
    else if c.kind == All(true) && row.Some? && row.value.contentType == item.contentType then
      one.(skippedExisting := 1)
    else if c.dryRun || c.env.detail(pass, item.id) == DetailKeysExhausted then one
    else if c.env.detail(pass, item.id) == DetailFailed then one.(skippedDetailFailed := 1)
    else if !c.env.saves(pass, item.id) then one.(skippedSaveFailed := 1)
    else
      var details := source.details(item.id);
      var offered := Offered(item, details.images);
      one.(created := if row.None? then 1 else 0, updated := if row.Some? then 1 else 0,
           imagesSaved := Position(offered, |offered|), infoSaved := if details.info.Some? then 1 else 0)
  }

  ghost function CountedAll(source: Source, c: Config, pass: int, items: seq<Item>, db: Database): seq<Summary> {
    seq(|items|, i requires 0 <= i < |items| => Counted(source, c, pass, items[i], Row(db, items[i].id)))
  }

  lemma CountedOneMore(source: Source, c: Config, pass: int, item: Item, rest: seq<Item>, db: Database)
    ensures CountedAll(source, c, pass, [], db) == []
    ensures CountedAll(source, c, pass, [item] + rest, db) ==
            [Counted(source, c, pass, item, Row(db, item.id))] + CountedAll(source, c, pass, rest, db)
  {
    hide Counted;
  }

  ghost function Sum(counts: seq<Summary>, counter: Summary -> nat): nat {
    if counts == [] then 0 else counter(counts[0]) + Sum(counts[1..], counter)
  }

  // Each counter has grown by its sum over the counts.
  ghost predicate Grown(before: Summary, counts: seq<Summary>, after: Summary) {
    && after.fetched == before.fetched + Sum(counts, (s: Summary) => s.fetched)
    && after.skippedNoImage == before.skippedNoImage + Sum(counts, (s: Summary) => s.skippedNoImage)
    && after.skippedExisting == before.skippedExisting + Sum(counts, (s: Summary) => s.skippedExisting)
    && after.created == before.created + Sum(counts, (s: Summary) => s.created)
    && after.updated == before.updated + Sum(counts, (s: Summary) => s.updated)
    && after.imagesSaved == before.imagesSaved + Sum(counts, (s: Summary) => s.imagesSaved)
    && after.infoSaved == before.infoSaved + Sum(counts, (s: Summary) => s.infoSaved)
    && after.deactivated == before.deactivated + Sum(counts, (s: Summary) => s.deactivated)
    && after.skippedUnchanged == before.skippedUnchanged + Sum(counts, (s: Summary) => s.skippedUnchanged)
    && after.skippedDetailFailed == before.skippedDetailFailed + Sum(counts, (s: Summary) => s.skippedDetailFailed)
    && after.skippedSaveFailed == before.skippedSaveFailed + Sum(counts, (s: Summary) => s.skippedSaveFailed)
  }

  lemma GrownByNone(s: Summary)
    ensures Grown(s, [], s)
  {
  }

  lemma GrownByOne(before: Summary, one: Summary)
    ensures Grown(before, [one], before.Add(one))
  {
    assert [one][1..] == [];
  }

  lemma {:induction false} SumConcat(a: seq<Summary>, b: seq<Summary>, counter: Summary -> nat)
    ensures Sum(a + b, counter) == Sum(a, counter) + Sum(b, counter)
  {
    if a == [] {
      assert a + b == b;
    } else {
      SumConcat(a[1..], b, counter);
      assert (a + b)[1..] == a[1..] + b;
    }
  }

  lemma GrownTwice(s: Summary, a: seq<Summary>, t: Summary, b: seq<Summary>, u: Summary)
    requires Grown(s, a, t) && Grown(t, b, u)
    ensures Grown(s, a + b, u)
  {
    hide Sum;
    forall counter: Summary -> nat
      ensures Sum(a + b, counter) == Sum(a, counter) + Sum(b, counter)
    {
      SumConcat(a, b, counter);
    }
  }

  // ----- one item

  lemma ListItemCounts(source: Source, c: Config, pass: int, known: map<int, Option<string>>, item: Item, st: State)
    requires Fits(known, item.contentType, st.db, item.id)
    ensures
      var after := ListItem(source, c, pass, known, item, st);
      && after.sub == st.sub.Add(CountedFetched(source, c, pass, item, Row(st.db, item.id)))
      && after.seen == st.seen && after.total == st.total
  {
    hide ListItem, CountedFetched;
    if item.firstImage.None? || (c.kind == All(true) && item.id in known) || c.dryRun {
      UnfetchedCounts(source, c, pass, known, item, st);
    } else {
      FetchedCounts(source, c, pass, known, item, st);
    }
  }

  lemma UnfetchedCounts(source: Source, c: Config, pass: int, known: map<int, Option<string>>, item: Item, st: State)
    requires Fits(known, item.contentType, st.db, item.id)
    requires item.firstImage.None? || (c.kind == All(true) && item.id in known) || c.dryRun
    ensures
      var after := ListItem(source, c, pass, known, item, st);
      && after.sub == st.sub.Add(CountedFetched(source, c, pass, item, Row(st.db, item.id)))
      && after.seen == st.seen && after.total == st.total
  {
    hide SaveItem, Position;
  }

  // The item at hand, fetched and not saved, or saved.
  lemma FetchedCounts(source: Source, c: Config, pass: int, known: map<int, Option<string>>, item: Item, st: State)
    requires Fits(known, item.contentType, st.db, item.id)
    requires item.firstImage.Some? && !(c.kind == All(true) && item.id in known) && !c.dryRun
    ensures
      var after := ListItem(source, c, pass, known, item, st);
      && after.sub == st.sub.Add(CountedFetched(source, c, pass, item, Row(st.db, item.id)))
      && after.seen == st.seen && after.total == st.total
  {
    hide SaveItem, Position;
    SavedCounts(source, item, st.(sub := st.sub.(fetched := st.sub.fetched + 1)));
  }

  lemma SavedCounts(source: Source, item: Item, st: State)
    ensures
      var details := source.details(item.id);
      var offered := Offered(item, details.images);
      var after, row := SaveItem(source, item, st), Row(st.db, item.id);
      && after.sub == st.sub.Add(EMPTY.(created := if row.None? then 1 else 0, updated := if row.Some? then 1 else 0,
                                        imagesSaved := Position(offered, |offered|),
                                        infoSaved := if details.info.Some? then 1 else 0))
      && after.seen == st.seen && after.total == st.total
  {
    hide Save, ImageUrls, Position, Holds;
    SaveHolds(source, item, Row(st.db, item.id));
  }

  lemma LaterIsNewer(time: Option<string>, stored: Option<string>)
    ensures Later(time, stored) <==> Newer(time, stored)
  {
    hide Before, Lexicographic;
    if time.Some? && stored.Some? {
      BeforeIsLexicographic(stored.value, time.value);
    }
  }

  lemma ItemCounts(source: Source, c: Config, pass: int, known: map<int, Option<string>>, item: Item, st: State)
    requires Fits(known, item.contentType, st.db, item.id)
    ensures
      var after := HandleItem(source, c, pass, known, item, st);
      && after.sub == st.sub.Add(Counted(source, c, pass, item, Row(st.db, item.id)))
      && after.seen == st.seen + [item]
      && after.total == st.total
  {
    hide ListItem, CountedFetched, Later, Newer;
    ListItemCounts(source, c, pass, known, item, st.(seen := st.seen + [item]));
    if item.id in known {
      LaterIsNewer(item.modifiedAt, known[item.id]);
    }
  }

  // ----- the items of a pass

  // Handling stops at an abort; what has been handled is a prefix, and its rows are as the pass found them.
  lemma {:induction false} ItemsCount(source: Source, c: Config, pass: int, known: map<int, Option<string>>,
                                      contentType: int, items: seq<Item>, st: State, db: Database)
    requires Pending(known, contentType, items, st.db) && !st.aborted
    requires forall i :: 0 <= i < |items| ==> Row(st.db, items[i].id) == Row(db, items[i].id)
    ensures
      var after := HandleItems(source, c, pass, known, items, st);
      && |st.seen| <= |after.seen| <= |st.seen| + |items|
      && after.seen == st.seen + items[..|after.seen| - |st.seen|]
      && (!after.aborted ==> after.seen == st.seen + items)
      && Grown(st.sub, CountedAll(source, c, pass, items[..|after.seen| - |st.seen|], db), after.sub)
      && after.total == st.total
  {
    hide Grown, CountedAll, HandleItem, Fits, Pending;
    if items == [] {
      NoItemCounts(source, c, pass, items, st, db);
    } else {
      var item, rest := items[0], items[1..];
      var st1 := HandleItem(source, c, pass, known, item, st);
      FirstPending(known, contentType, items, st.db);
      ItemCounts(source, c, pass, known, item, st);
      RestPending(source, c, pass, known, contentType, items, st, db);
      var one := Counted(source, c, pass, item, Row(db, item.id));
      GrownByOne(st.sub, one);
      if st1.aborted {
        assert items[..1] == [item] + [];
        CountedOneMore(source, c, pass, item, [], db);
        assert [one] + [] == [one];
        assert HandleItems(source, c, pass, known, rest, st1) == st1;
      } else {
        ItemsCount(source, c, pass, known, contentType, rest, st1, db);
        var after := HandleItems(source, c, pass, known, rest, st1);
        var n := |after.seen| - |st1.seen|;
        assert items[..n + 1] == [item] + rest[..n];
        CountedOneMore(source, c, pass, item, rest[..n], db);
        GrownTwice(st.sub, [one], st1.sub, CountedAll(source, c, pass, rest[..n], db), after.sub);
      }
    }
  }

  lemma NoItemCounts(source: Source, c: Config, pass: int, items: seq<Item>, st: State, db: Database)
    ensures st.seen + items[..0] == st.seen && Grown(st.sub, CountedAll(source, c, pass, items[..0], db), st.sub)
  {
    GrownByNone(st.sub);
    assert CountedAll(source, c, pass, items[..0], db) == [];
  }

  lemma FirstPending(known: map<int, Option<string>>, contentType: int, items: seq<Item>, db: Database)
    requires Pending(known, contentType, items, db) && items != []
    ensures items[0].contentType == contentType && Fits(known, contentType, db, items[0].id)
  {
  }

  // After the first item, the rows of the others are still as found.
  lemma RestPending(source: Source, c: Config, pass: int, known: map<int, Option<string>>, contentType: int,
                    items: seq<Item>, st: State, db: Database)
    requires Pending(known, contentType, items, st.db) && items != []
    requires forall i :: 0 <= i < |items| ==> Row(st.db, items[i].id) == Row(db, items[i].id)
    ensures
      var st1 := HandleItem(source, c, pass, known, items[0], st);
      && Pending(known, contentType, items[1..], st1.db)
      && forall i :: 0 <= i < |items| - 1 ==> Row(st1.db, items[1..][i].id) == Row(db, items[1..][i].id)
  {
    hide HandleItem, Fits;
    var st1 := HandleItem(source, c, pass, known, items[0], st);
    ItemTouches(source, c, pass, known, items[0], st);
    assert items[..1] == [items[0]];
    PendingRest(known, contentType, items, 1, st.db, st1.db);
  }

  /** Over any pass, whatever fails: the items handled are a stretch of the listing, each counter is the sum of what
  they count by the rows the pass found, and the total grows by these counters unless the pass is aborted. */
  lemma PassCounts(source: Source, c: Config, pass: nat, st: State)
    requires ValidRun(source, c) && pass < |c.types| && !st.aborted
    ensures
      var after := Pass(source, c, pass, st);
      && after.seen <= c.listing(c.types[pass])
      && Grown(EMPTY, CountedAll(source, c, pass, after.seen, st.db), after.sub)
      && if after.aborted then after.total == st.total else Grown(st.total, [after.sub], after.total)
  {
    hide Grown, Counted, HandleItems, Pages, ValidList;
    var t := c.types[pass];
    var known, start := Snapshot(st.db, t), PassStart(st);
    var end := PagesEnd(source, c, pass, t, known, 1, 0, start);
    var items := c.listing(t)[0..end];
    PagesAreItems(source, c, pass, t, known, 1, 0, start);
    ListingPending(source, c.kind, t, c.listing(t), st.db, end);
    ItemsCount(source, c, pass, known, t, items, start, st.db);
    var after := Pass(source, c, pass, st);
    GrownByOne(st.total, after.sub);
    assert after.seen == items[..|after.seen|];
  }

  // The passes a run completes, with their own counters.
  ghost function PassSums(source: Source, c: Config, pass: nat, st: State): seq<Summary>
    requires c.pageSize > 0 && pass <= |c.types|
    decreases |c.types| - pass
  {
    if pass == |c.types| || st.aborted then []
    else
      var st1 := Pass(source, c, pass, st);
      (if st1.aborted then [] else [st1.sub]) + PassSums(source, c, pass + 1, st1)
  }

  lemma {:induction false} PassesCount(source: Source, c: Config, pass: nat, st: State)
    requires ValidRun(source, c) && pass <= |c.types|
    ensures Grown(st.total, PassSums(source, c, pass, st), Passes(source, c, pass, st).total)
    decreases |c.types| - pass
  {
    hide Grown, Pass, ValidList;
    if pass == |c.types| || st.aborted {
      GrownByNone(st.total);
    } else {
      var st1 := Pass(source, c, pass, st);
      PassCounts(source, c, pass, st);
      PassesCount(source, c, pass + 1, st1);
      if st1.aborted {
        assert [] + PassSums(source, c, pass + 1, st1) == PassSums(source, c, pass + 1, st1);
      } else {
        GrownTwice(st.total, [st1.sub], st1.total, PassSums(source, c, pass + 1, st1),
                   Passes(source, c, pass + 1, st1).total);
      }
    }
  }

  /** And the summary of a run is the sum of the passes it completes. */
  lemma RunCounts(source: Source, c: Config, db: Database)
    requires ValidRun(source, c)
    ensures Grown(EMPTY, PassSums(source, c, 0, Start(db)), Run(source, c, db).total)
  {
    hide Grown, Passes, PassSums;
    PassesCount(source, c, 0, Start(db));
  }
}
