/** What a history of failing and aborted runs followed by one clean run leaves in the database.

Every run touches each row at most once per pass, and each touch is either nothing or the one effect a
clean run has on it; that effect is idempotent. From this follow convergence, the monotone modification
times and the fixed point of the incremental run.
 */
module SyncConvergence {
  import opened Common
  import opened PlaceSync

  // ----- well-formed sources and runs

  // What a run of the kind is served.
  function ListsOf(source: Source, kind: Kind): map<int, seq<Item>> {
    if kind.Incremental? then source.changes else source.full
  }

  ghost predicate Has(source: Source, kind: Kind, item: Item) {
    var lists := ListsOf(source, kind);
    item.contentType in lists && item in lists[item.contentType]
  }

  ghost predicate HasId(source: Source, kind: Kind, id: int) {
    exists item :: Has(source, kind, item) && item.id == id
  }

  // Content ids are distinct within the list.
  ghost predicate ValidList(source: Source, kind: Kind) {
    && (forall a, b :: Has(source, kind, a) && Has(source, kind, b) && a.id == b.id ==> a == b)
    && forall t :: t in ListsOf(source, kind) ==> IsListing(source, kind, t, ListsOf(source, kind)[t])
  }

  // The items of the type, each once, in some order.
  ghost predicate IsListing(source: Source, kind: Kind, contentType: int, items: seq<Item>) {
    && NoRepeats(items)
    && forall item :: item in items <==> Has(source, kind, item) && item.contentType == contentType
  }

  // On one of the lists.
  ghost predicate Known(source: Source, item: Item) {
    Has(source, All(true), item) || Has(source, Incremental, item)
  }

  // The lists may hold different content ids, but one id is the same item on both.
  ghost predicate ValidSource(source: Source) {
    && ValidList(source, All(true))
    && ValidList(source, Incremental)
    && forall a, b :: Known(source, a) && Known(source, b) && a.id == b.id ==> a == b
  }

  ghost predicate ValidRun(source: Source, c: Config) {
    && c.pageSize > 0
    && ValidList(source, c.kind)
    && forall t :: IsListing(source, c.kind, t, c.listing(t))
  }

  // A run in which nothing fails and nothing is cut short.
  ghost predicate FailureFree(c: Config) {
    && !c.dryRun && c.maxPages.None?
    && (forall p, q :: c.env.list(p, q) == Listed)
    && (forall p, id :: c.env.detail(p, id) == Fetched)
    && forall p, id :: c.env.saves(p, id)
  }

  ghost predicate Covers(source: Source, c: Config) {
    forall t :: t in ListsOf(source, c.kind) ==> t in c.types
  }

  // ----- the effect of a clean run on one row

  predicate IsStored(item: Item, row: Option<Place>) {
    row.Some? && row.value.contentType == item.contentType
  }

  function Store(source: Source, item: Item, row: Option<Place>): Option<Place> {
    if item.firstImage.None? then row else Some(Save(source, item, row))
  }

  // A stored row a run of the kind leaves alone: a resuming full run every one, an incremental run an up-to-date one.
  predicate KeepsStored(kind: Kind, item: Item, stored: Place) {
    kind == All(true) || (kind.Incremental? && !Newer(item.modifiedAt, stored.modifiedAt))
  }

  function Effect(source: Source, kind: Kind, item: Item, row: Option<Place>): Option<Place> {
    if kind.Incremental? && item.hidden then
      if IsStored(item, row) then Some(row.value.(active := false)) else row
    else if IsStored(item, row) && KeepsStored(kind, item, row.value) then row
    else Store(source, item, row)
  }

  lemma {:induction false} BeforeIrreflexive(a: string)
    ensures !Before(a, a)
  {
    if a != "" {
      BeforeIrreflexive(a[1..]);
    }
  }

  // Saving images overlays those of the details on those there are.
  lemma {:induction false} SaveImagesOverlays(images: map<string, Image>, urls: seq<(string, Option<string>)>)
    ensures SaveImages(images, urls) == images + SaveImages(map[], urls)
  {
    if urls != [] {
      SaveImagesOverlays(images, urls[..|urls| - 1]);
    }
  }

  lemma SaveIdempotent(source: Source, item: Item, row: Option<Place>)
    ensures Save(source, item, Some(Save(source, item, row))) == Save(source, item, row)
  {
    var urls := ImageUrls(item, source.details(item.id).images);
    var images := if row.Some? then row.value.images else map[];
    SaveImagesOverlays(images, urls);
    SaveImagesOverlays(SaveImages(images, urls), urls);
    var added := SaveImages(map[], urls);
    assert (images + added) + added == images + added;
  }

  lemma EffectIdempotent(source: Source, kind: Kind, item: Item, row: Option<Place>)
    ensures Effect(source, kind, item, Effect(source, kind, item, row)) == Effect(source, kind, item, row)
  {
    SaveIdempotent(source, item, row);
    hide SaveImages, ImageUrls;
    if item.modifiedAt.Some? {
      BeforeIrreflexive(item.modifiedAt.value);
    }
  }

  // ----- one item

  // The snapshot still describes the row.
  ghost predicate Fits(known: map<int, Option<string>>, contentType: int, db: Database, id: int) {
    && (id in known <==> id in db && db[id].contentType == contentType)
    && (id in known ==> known[id] == db[id].modifiedAt)
  }

  // The row is as before or as the effect makes it; after a clean step it is as the effect makes it.
  ghost predicate Touched(source: Source, c: Config, item: Item, before: Database, after: Database) {
    var row := Row(before, item.id);
    && (Row(after, item.id) == row || Row(after, item.id) == Effect(source, c.kind, item, row))
    && (FailureFree(c) ==> Row(after, item.id) == Effect(source, c.kind, item, row))
  }

  lemma ListItemTouches(source: Source, c: Config, pass: int, known: map<int, Option<string>>, item: Item, st: State)
    ensures
      var row, after := Row(st.db, item.id), ListItem(source, c, pass, known, item, st);
      var stored := if item.firstImage.None? || (c.kind == All(true) && item.id in known) then row
                    else Some(Save(source, item, row));
      && (Row(after.db, item.id) == row || Row(after.db, item.id) == stored)
      && (FailureFree(c) ==> Row(after.db, item.id) == stored && after.aborted == st.aborted)
      && forall id :: id != item.id ==> Row(after.db, id) == Row(st.db, id)
  {
    hide Save, ImageUrls;
  }

  lemma ItemTouches(source: Source, c: Config, pass: int, known: map<int, Option<string>>, item: Item, st: State)
    requires Fits(known, item.contentType, st.db, item.id)
    ensures
      var after := HandleItem(source, c, pass, known, item, st);
      && Touched(source, c, item, st.db, after.db)
      && (FailureFree(c) ==> after.aborted == st.aborted)
      && forall id :: id != item.id ==> Row(after.db, id) == Row(st.db, id)
  {
    hide ListItem, Save, Newer;
    ListItemTouches(source, c, pass, known, item, st.(seen := st.seen + [item]));
  }

  // ----- a page, a type, a run

  ghost predicate DistinctIds(items: seq<Item>) {
    forall i, j :: 0 <= i < j < |items| ==> items[i].id != items[j].id
  }

  // A stretch of the type's items whose rows the snapshot still describes.
  ghost predicate Pending(known: map<int, Option<string>>, contentType: int, items: seq<Item>, db: Database) {
    && DistinctIds(items)
    && forall i :: 0 <= i < |items| ==>
         items[i].contentType == contentType && Fits(known, contentType, db, items[i].id)
  }

  ghost predicate Mentions(items: seq<Item>, id: int) {
    exists i :: 0 <= i < |items| && items[i].id == id
  }

  lemma PendingRest(known: map<int, Option<string>>, contentType: int, items: seq<Item>, n: nat,
                    db: Database, db': Database)
    requires n <= |items| && Pending(known, contentType, items, db)
    requires forall id :: !Mentions(items[..n], id) ==> Row(db', id) == Row(db, id)
    ensures Pending(known, contentType, items[n..], db')
  {
    var rest := items[n..];
    forall i | 0 <= i < |rest|
      ensures Fits(known, contentType, db', rest[i].id)
    {
      assert rest[i] == items[n + i];
      assert !Mentions(items[..n], rest[i].id);
      assert Row(db', rest[i].id) == Row(db, rest[i].id);
    }
  }

  lemma {:induction false} ItemsFrame(source: Source, c: Config, pass: int, known: map<int, Option<string>>,
                                      contentType: int, items: seq<Item>, st: State)
    requires Pending(known, contentType, items, st.db)
    ensures
      var after := HandleItems(source, c, pass, known, items, st);
      forall id :: !Mentions(items, id) ==> Row(after.db, id) == Row(st.db, id)
  {
    if items != [] && !st.aborted {
      var st1 := HandleItem(source, c, pass, known, items[0], st);
      ItemTouches(source, c, pass, known, items[0], st);
      assert items[..1] == [items[0]];
      PendingRest(known, contentType, items, 1, st.db, st1.db);
      ItemsFrame(source, c, pass, known, contentType, items[1..], st1);
      forall id | !Mentions(items, id)
        ensures !Mentions(items[1..], id) && id != items[0].id
      {
        assert forall i :: 0 <= i < |items| - 1 ==> items[1..][i] == items[i + 1];
      }
    }
  }

  lemma {:induction false} ItemsTouch(source: Source, c: Config, pass: int, known: map<int, Option<string>>,
                                      contentType: int, items: seq<Item>, st: State, k: nat)
    requires Pending(known, contentType, items, st.db) && k < |items|
    requires FailureFree(c) ==> !st.aborted
    ensures Touched(source, c, items[k], st.db, HandleItems(source, c, pass, known, items, st).db)
  {
    if !st.aborted {
      var st1 := HandleItem(source, c, pass, known, items[0], st);
      ItemTouches(source, c, pass, known, items[0], st);
      assert items[..1] == [items[0]];
      PendingRest(known, contentType, items, 1, st.db, st1.db);
      ItemsFrame(source, c, pass, known, contentType, items[1..], st1);
      if k == 0 {
        assert forall i :: 0 <= i < |items| - 1 ==> items[1..][i] == items[i + 1];
        assert !Mentions(items[1..], items[0].id);
      } else {
        ItemsTouch(source, c, pass, known, contentType, items[1..], st1, k - 1);
      }
    }
  }

  // ----- the paging loop handles a stretch of the listing, item by item

  lemma {:induction false} ItemsConcat(source: Source, c: Config, pass: int, known: map<int, Option<string>>,
                                       a: seq<Item>, b: seq<Item>, st: State)
    ensures HandleItems(source, c, pass, known, a + b, st) ==
            HandleItems(source, c, pass, known, b, HandleItems(source, c, pass, known, a, st))
  {
    if a == [] {
      assert a + b == b;
    } else if !st.aborted {
      assert (a + b)[1..] == a[1..] + b;
      ItemsConcat(source, c, pass, known, a[1..], b, HandleItem(source, c, pass, known, a[0], st));
    }
  }

  predicate ListedPage(c: Config, pass: int, page: int) {
    (c.maxPages.None? || page <= c.maxPages.value) && c.env.list(pass, page) == Listed
  }

  // Same state but for an abort by the list call itself.
  ghost predicate SameWork(a: State, b: State) {
    a.db == b.db && a.sub == b.sub && a.total == b.total && a.seen == b.seen && (b.aborted ==> a.aborted)
  }

  // Where in the listing the paging loop stops.
  function PagesEnd(source: Source, c: Config, pass: int, contentType: int, known: map<int, Option<string>>,
                    page: int, offset: nat, st: State): (end: nat)
    requires c.pageSize > 0 && offset <= |c.listing(contentType)|
    ensures offset <= end <= |c.listing(contentType)|
    decreases |c.listing(contentType)| - offset
  {
    var now := Page(c.listing(contentType), offset, c.pageSize);
    if !ListedPage(c, pass, page) || now == [] then offset
    else
      var st1 := HandleItems(source, c, pass, known, now, st);
      if st1.aborted || |now| < c.pageSize then offset + |now|
      else PagesEnd(source, c, pass, contentType, known, page + 1, offset + c.pageSize, st1)
  }

  lemma SliceSplit(items: seq<Item>, a: nat, b: nat, c: nat)
    requires a <= b <= c <= |items|
    ensures items[a..c] == items[a..b] + items[b..c]
  {
  }

  lemma PageIsSlice(items: seq<Item>, offset: nat, n: nat)
    requires offset <= |items|
    ensures |Page(items, offset, n)| <= n && offset + |Page(items, offset, n)| <= |items|
    ensures Page(items, offset, n) == items[offset..offset + |Page(items, offset, n)|]
  {
  }

  lemma {:induction false} PagesAreItems(source: Source, c: Config, pass: int, contentType: int,
                                         known: map<int, Option<string>>, page: int, offset: nat, st: State)
    requires c.pageSize > 0 && offset <= |c.listing(contentType)|
    ensures
      var end := PagesEnd(source, c, pass, contentType, known, page, offset, st);
      SameWork(Pages(source, c, pass, contentType, known, page, offset, st),
               HandleItems(source, c, pass, known, c.listing(contentType)[offset..end], st))
    decreases |c.listing(contentType)| - offset
  {
    hide HandleItems, HandleItem, Page;
    var all := c.listing(contentType);
    var now := Page(all, offset, c.pageSize);
    var next := offset + |now|;
    if ListedPage(c, pass, page) && now != [] {
      var st1 := HandleItems(source, c, pass, known, now, st);
      PageIsSlice(all, offset, c.pageSize);
      if !st1.aborted && |now| == c.pageSize {
        PagesAreItems(source, c, pass, contentType, known, page + 1, next, st1);
        var end := PagesEnd(source, c, pass, contentType, known, page + 1, next, st1);
        SliceSplit(all, offset, next, end);
        ItemsConcat(source, c, pass, known, now, all[next..end], st);
      }
    } else {
      assert all[offset..offset] == [];
      NoItems(source, c, pass, known, st);
    }
  }

  lemma NoItems(source: Source, c: Config, pass: int, known: map<int, Option<string>>, st: State)
    ensures HandleItems(source, c, pass, known, [], st) == st
  {
  }

  lemma {:induction false} ItemsGoOn(source: Source, c: Config, pass: int, known: map<int, Option<string>>,
                                     items: seq<Item>, st: State)
    requires FailureFree(c) && !st.aborted
    ensures !HandleItems(source, c, pass, known, items, st).aborted
  {
    if items != [] {
      ItemsGoOn(source, c, pass, known, items[1..], HandleItem(source, c, pass, known, items[0], st));
    }
  }

  lemma {:induction false} PagesGoOn(source: Source, c: Config, pass: int, contentType: int,
                                     known: map<int, Option<string>>, page: int, offset: nat, st: State)
    requires c.pageSize > 0 && offset <= |c.listing(contentType)|
    requires FailureFree(c) && !st.aborted
    ensures PagesEnd(source, c, pass, contentType, known, page, offset, st) == |c.listing(contentType)|
    ensures !Pages(source, c, pass, contentType, known, page, offset, st).aborted
    decreases |c.listing(contentType)| - offset
  {
    hide HandleItems;
    var now := Page(c.listing(contentType), offset, c.pageSize);
    ItemsGoOn(source, c, pass, known, now, st);
    if |now| == c.pageSize {
      var st1 := HandleItems(source, c, pass, known, now, st);
      PagesGoOn(source, c, pass, contentType, known, page + 1, offset + c.pageSize, st1);
    }
  }

  // ----- one type

  lemma ListingPending(source: Source, kind: Kind, contentType: int, items: seq<Item>, db: Database, end: nat)
    requires ValidList(source, kind) && IsListing(source, kind, contentType, items) && end <= |items|
    ensures Pending(Snapshot(db, contentType), contentType, items[0..end], db)
  {
    var part := items[0..end];
    forall i | 0 <= i < |part|
      ensures part[i].contentType == contentType
    {
      assert part[i] == items[i] && items[i] in items;
    }
    forall i, j | 0 <= i < j < |part|
      ensures part[i].id != part[j].id
    {
      assert items[i] in items && items[j] in items;
    }
  }

  lemma PassTouches(source: Source, c: Config, pass: nat, st: State, item: Item)
    requires ValidRun(source, c) && pass < |c.types| && !st.aborted
    requires Has(source, c.kind, item) && item.contentType == c.types[pass]
    ensures Touched(source, c, item, st.db, Pass(source, c, pass, st).db)
  {
    var t := c.types[pass];
    var all, known, start := c.listing(t), Snapshot(st.db, t), PassStart(st);
    var end := PagesEnd(source, c, pass, t, known, 1, 0, start);
    PagesAreItems(source, c, pass, t, known, 1, 0, start);
    if FailureFree(c) {
      PagesGoOn(source, c, pass, t, known, 1, 0, start);
    }
    ListingPending(source, c.kind, t, all, st.db, end);
    ItemsFrame(source, c, pass, known, t, all[0..end], start);
    var k :| 0 <= k < |all| && all[k] == item;
    if k < end {
      assert all[0..end][k] == item;
      ItemsTouch(source, c, pass, known, t, all[0..end], start, k);
    } else {
      forall i | 0 <= i < end
        ensures all[0..end][i].id != item.id
      {
        assert all[i] in all && all[i] != all[k];
      }
      assert !Mentions(all[0..end], item.id);
    }
  }

  lemma PassFrame(source: Source, c: Config, pass: nat, st: State, id: int)
    requires ValidRun(source, c) && pass < |c.types| && !st.aborted
    requires forall item :: Has(source, c.kind, item) && item.contentType == c.types[pass] ==> item.id != id
    ensures Row(Pass(source, c, pass, st).db, id) == Row(st.db, id)
  {
    var t := c.types[pass];
    var all, known, start := c.listing(t), Snapshot(st.db, t), PassStart(st);
    var end := PagesEnd(source, c, pass, t, known, 1, 0, start);
    PagesAreItems(source, c, pass, t, known, 1, 0, start);
    ListingPending(source, c.kind, t, all, st.db, end);
    ItemsFrame(source, c, pass, known, t, all[0..end], start);
    forall i | 0 <= i < end
      ensures all[0..end][i].id != id
    {
      assert all[i] in all;
    }
    assert !Mentions(all[0..end], id);
  }

  // ----- a run

  lemma {:induction false} PassesFrame(source: Source, c: Config, pass: nat, st: State, id: int)
    requires ValidRun(source, c) && pass <= |c.types|
    requires !HasId(source, c.kind, id)
    ensures Row(Passes(source, c, pass, st).db, id) == Row(st.db, id)
    decreases |c.types| - pass
  {
    if pass < |c.types| && !st.aborted {
      PassFrame(source, c, pass, st, id);
      PassesFrame(source, c, pass + 1, Pass(source, c, pass, st), id);
    }
  }

  // However often its type is visited: the row is as before or as one effect makes it, and as the effect
  // makes it once a failure-free run has visited its type.
  lemma {:induction false} PassesTouch(source: Source, c: Config, pass: nat, st: State, item: Item)
    requires ValidRun(source, c) && pass <= |c.types| && Has(source, c.kind, item)
    requires FailureFree(c) ==> !st.aborted
    ensures
      var row, after := Row(st.db, item.id), Row(Passes(source, c, pass, st).db, item.id);
      && (after == row || after == Effect(source, c.kind, item, row))
      && (FailureFree(c) && item.contentType in c.types[pass..] ==> after == Effect(source, c.kind, item, row))
    decreases |c.types| - pass
  {
    hide Pass, Effect, Has;
    if pass < |c.types| && !st.aborted {
      var st1 := Pass(source, c, pass, st);
      var row := Row(st.db, item.id);
      NoAbort(source, c, pass, st);
      if c.types[pass] == item.contentType {
        PassTouches(source, c, pass, st, item);
      } else {
        PassFrame(source, c, pass, st, item.id);
      }
      PassesTouch(source, c, pass + 1, st1, item);
      EffectIdempotent(source, c.kind, item, row);
      assert c.types[pass..] == [c.types[pass]] + c.types[pass + 1..];
    }
  }

  lemma NoAbort(source: Source, c: Config, pass: nat, st: State)
    requires ValidRun(source, c) && pass < |c.types| && !st.aborted
    ensures FailureFree(c) ==> !Pass(source, c, pass, st).aborted
  {
    if FailureFree(c) {
      PagesGoOn(source, c, pass, c.types[pass], Snapshot(st.db, c.types[pass]), 1, 0, PassStart(st));
    }
  }

  lemma RunTouches(source: Source, c: Config, db: Database, item: Item)
    requires ValidRun(source, c) && Has(source, c.kind, item)
    ensures
      var row, after := Row(db, item.id), Row(Run(source, c, db).db, item.id);
      && (after == row || after == Effect(source, c.kind, item, row))
      && (FailureFree(c) && Covers(source, c) ==> after == Effect(source, c.kind, item, row))
  {
    PassesTouch(source, c, 0, Start(db), item);
    assert c.types[0..] == c.types;
  }

  // The effect of a kind of run: none on an item its list does not hold.
  ghost function EffectIn(source: Source, kind: Kind, item: Item, row: Option<Place>): Option<Place> {
    if Has(source, kind, item) then Effect(source, kind, item, row) else row
  }

  // The list holds this item, or nothing with its content id.
  ghost predicate Settles(source: Source, kind: Kind, item: Item) {
    Has(source, kind, item) || !HasId(source, kind, item.id)
  }

  lemma RunEffect(source: Source, c: Config, db: Database, item: Item)
    requires ValidRun(source, c) && Settles(source, c.kind, item)
    ensures
      var row, after := Row(db, item.id), Row(Run(source, c, db).db, item.id);
      && (after == row || after == EffectIn(source, c.kind, item, row))
      && (FailureFree(c) && Covers(source, c) ==> after == EffectIn(source, c.kind, item, row))
  {
    hide Effect;
    if Has(source, c.kind, item) {
      RunTouches(source, c, db, item);
    } else {
      PassesFrame(source, c, 0, Start(db), item.id);
    }
  }

  lemma EffectInIdempotent(source: Source, kind: Kind, item: Item, row: Option<Place>)
    ensures EffectIn(source, kind, item, EffectIn(source, kind, item, row)) == EffectIn(source, kind, item, row)
  {
    EffectIdempotent(source, kind, item, row);
  }

  // ----- histories

  function Exec(source: Source, history: seq<Config>, db: Database): Database
    requires forall c :: c in history ==> c.pageSize > 0
  {
    if history == [] then db
    else
      var last := |history| - 1;
      Run(source, history[last], Exec(source, history[..last], db)).db
  }

  ghost predicate ValidHistory(source: Source, history: seq<Config>) {
    forall c :: c in history ==> ValidRun(source, c)
  }

  lemma {:induction false} HistoryFrame(source: Source, history: seq<Config>, db: Database, id: int)
    requires ValidHistory(source, history) && forall c :: c in history ==> !HasId(source, c.kind, id)
    ensures Row(Exec(source, history, db), id) == Row(db, id)
  {
    if history != [] {
      var last := |history| - 1;
      HistoryFrame(source, history[..last], db, id);
      PassesFrame(source, history[last], 0, Start(Exec(source, history[..last], db)), id);
    }
  }

  // A run of kind `first` leaves the row as good as before for a run of kind `last`.
  ghost predicate Absorbs(source: Source, first: Kind, last: Kind, item: Item, row: Option<Place>) {
    EffectIn(source, last, item, EffectIn(source, first, item, row)) == EffectIn(source, last, item, row)
  }

  ghost predicate KindsAbsorb(source: Source, kinds: set<Kind>, item: Item, row: Option<Place>) {
    forall a, b :: a in kinds && b in kinds ==> Absorbs(source, a, b, item, row)
  }

  ghost predicate RunsOf(history: seq<Config>, kinds: set<Kind>) {
    forall c :: c in history ==> c.kind in kinds
  }

  ghost predicate KindsSettle(source: Source, kinds: set<Kind>, item: Item) {
    forall kind :: kind in kinds ==> Settles(source, kind, item)
  }

  // Then a whole history does, for a run of any of the kinds.
  lemma {:induction false} HistoryAbsorbed(source: Source, kinds: set<Kind>, history: seq<Config>, db: Database,
                                           item: Item, last: Kind)
    requires ValidHistory(source, history) && RunsOf(history, kinds) && last in kinds
    requires KindsSettle(source, kinds, item) && KindsAbsorb(source, kinds, item, Row(db, item.id))
    ensures EffectIn(source, last, item, Row(Exec(source, history, db), item.id)) ==
            EffectIn(source, last, item, Row(db, item.id))
  {
    if history != [] {
      var init, c := history[..|history| - 1], history[|history| - 1];
      HistoryAbsorbed(source, kinds, init, db, item, last);
      HistoryAbsorbed(source, kinds, init, db, item, c.kind);
      assert Absorbs(source, c.kind, last, item, Row(db, item.id));
      assert Settles(source, c.kind, item);
      hide EffectIn, Settles, Run, ValidRun;
      RunEffect(source, c, Exec(source, init, db), item);
    }
  }

  lemma SameRows(a: Database, b: Database)
    requires forall id :: Row(a, id) == Row(b, id)
    ensures a == b
  {
    forall id
      ensures id in a <==> id in b
      ensures id in a ==> a[id] == b[id]
    {
      assert Row(a, id) == Row(b, id);
    }
  }

  lemma FinalRow(source: Source, kinds: set<Kind>, history: seq<Config>, final: Config, db: Database, item: Item)
    requires ValidHistory(source, history) && RunsOf(history, kinds)
    requires ValidRun(source, final) && FailureFree(final) && Covers(source, final) && final.kind in kinds
    requires KindsSettle(source, kinds, item) && KindsAbsorb(source, kinds, item, Row(db, item.id))
    ensures Row(Run(source, final, Exec(source, history, db)).db, item.id) == Row(Run(source, final, db).db, item.id)
  {
    assert Settles(source, final.kind, item);
    hide EffectIn, Settles, KindsAbsorb, FailureFree;
    HistoryAbsorbed(source, kinds, history, db, item, final.kind);
    RunEffect(source, final, Exec(source, history, db), item);
    RunEffect(source, final, db, item);
  }

  // Rows of content ids on none of the lists stay.
  lemma UnlistedRow(source: Source, history: seq<Config>, final: Config, db: Database, id: int)
    requires ValidHistory(source, history) && ValidRun(source, final)
    requires (forall c :: c in history ==> !HasId(source, c.kind, id)) && !HasId(source, final.kind, id)
    ensures Row(Run(source, final, Exec(source, history, db)).db, id) == Row(Run(source, final, db).db, id)
  {
    HistoryFrame(source, history, db, id);
    PassesFrame(source, final, 0, Start(Exec(source, history, db)), id);
    PassesFrame(source, final, 0, Start(db), id);
  }

  // Runs of one kind: whatever failed before, one clean run leaves the database of a single clean run.
  lemma OneKindConverges(source: Source, history: seq<Config>, final: Config, db: Database)
    requires ValidHistory(source, history)
    requires ValidRun(source, final) && FailureFree(final) && Covers(source, final)
    requires forall c :: c in history ==> c.kind == final.kind
    ensures Run(source, final, Exec(source, history, db)).db == Run(source, final, db).db
  {
    forall id
      ensures Row(Run(source, final, Exec(source, history, db)).db, id) == Row(Run(source, final, db).db, id)
    {
      if item :| Has(source, final.kind, item) && item.id == id {
        EffectInIdempotent(source, final.kind, item, Row(db, id));
        FinalRow(source, {final.kind}, history, final, db, item);
      } else {
        UnlistedRow(source, history, final, db, id);
      }
    }
    SameRows(Run(source, final, Exec(source, history, db)).db, Run(source, final, db).db);
  }

  // ----- mixed histories

  // A full run would create the row.
  ghost predicate FullSaves(source: Source, item: Item, row: Option<Place>) {
    Has(source, All(true), item) && item.firstImage.Some? && !IsStored(item, row)
  }

  // An incremental run would create or update it.
  ghost predicate SyncSaves(source: Source, item: Item, row: Option<Place>) {
    && Has(source, Incremental, item) && !item.hidden && item.firstImage.Some?
    && (IsStored(item, row) ==> Newer(item.modifiedAt, row.value.modifiedAt))
  }

  // An incremental run would deactivate it, which no full run does.
  ghost predicate SyncHides(source: Source, item: Item, row: Option<Place>) {
    Has(source, Incremental, item) && item.hidden && IsStored(item, row) && row.value.active
  }

  // Both kinds of run treat the item's row alike: both save it or neither, and neither hides it.
  ghost predicate Agree(source: Source, item: Item, row: Option<Place>) {
    !SyncHides(source, item, row) && (FullSaves(source, item, row) <==> SyncSaves(source, item, row))
  }

  lemma AgreeIsSameEffect(source: Source, item: Item, row: Option<Place>)
    ensures Agree(source, item, row) <==>
            EffectIn(source, All(true), item, row) == EffectIn(source, Incremental, item, row)
  {
    hide Has;
    if item.modifiedAt.Some? {
      BeforeIrreflexive(item.modifiedAt.value);
    }
  }

  // A failure-free run over the types, one item a page.
  function CleanRun(source: Source, kind: Kind, types: seq<int>): Config {
    var lists := ListsOf(source, kind);
    Config(kind, types, 1, None, false, t => if t in lists then lists[t] else [],
           Environment((p, q) => Listed, (p, id) => Fetched, (p, id) => true))
  }

  lemma CleanRunIsClean(source: Source, kind: Kind, types: seq<int>)
    requires ValidList(source, kind)
    ensures ValidRun(source, CleanRun(source, kind, types)) && FailureFree(CleanRun(source, kind, types))
  {
  }

  // Every history of runs of these kinds, closed by a clean run of one of them, converges.
  ghost predicate Converges(source: Source, kinds: set<Kind>, db: Database) {
    forall history: seq<Config>, final: Config ::
      && ValidHistory(source, history) && RunsOf(history, kinds)
      && ValidRun(source, final) && FailureFree(final) && Covers(source, final) && final.kind in kinds ==>
        Run(source, final, Exec(source, history, db)).db == Run(source, final, db).db
  }

  ghost predicate AllAbsorb(source: Source, kinds: set<Kind>, db: Database) {
    forall item :: Known(source, item) ==> KindsAbsorb(source, kinds, item, Row(db, item.id))
  }

  lemma KnownSettles(source: Source, kind: Kind, item: Item)
    requires ValidSource(source) && Known(source, item)
    ensures Settles(source, kind, item)
  {
    if !Has(source, kind, item) {
      forall other | Has(source, kind, other)
        ensures other.id != item.id
      {
        assert Has(source, if kind.Incremental? then Incremental else All(true), other);
        assert Known(source, other);
      }
    }
  }

  lemma ConvergesIfAbsorbing(source: Source, kinds: set<Kind>, history: seq<Config>, final: Config, db: Database)
    requires ValidSource(source) && ValidHistory(source, history) && RunsOf(history, kinds)
    requires ValidRun(source, final) && FailureFree(final) && Covers(source, final) && final.kind in kinds
    requires AllAbsorb(source, kinds, db)
    ensures Run(source, final, Exec(source, history, db)).db == Run(source, final, db).db
  {
    hide FailureFree, Covers, KindsAbsorb;
    forall id
      ensures Row(Run(source, final, Exec(source, history, db)).db, id) == Row(Run(source, final, db).db, id)
    {
      if item :| Known(source, item) && item.id == id {
        forall kind | kind in kinds
          ensures Settles(source, kind, item)
        {
          KnownSettles(source, kind, item);
        }
        FinalRow(source, kinds, history, final, db, item);
      } else {
        forall c | ValidRun(source, c)
          ensures !HasId(source, c.kind, id)
        {
          UnknownId(source, c.kind, id);
        }
        UnlistedRow(source, history, final, db, id);
      }
    }
    SameRows(Run(source, final, Exec(source, history, db)).db, Run(source, final, db).db);
  }

  lemma UnknownId(source: Source, kind: Kind, id: int)
    requires forall item :: Known(source, item) ==> item.id != id
    ensures !HasId(source, kind, id)
  {
    forall item | Has(source, kind, item)
      ensures item.id != id
    {
      assert Has(source, if kind.Incremental? then Incremental else All(true), item);
      assert Known(source, item);
    }
  }

  ghost predicate CoversAll(source: Source, types: seq<int>) {
    forall t :: t in source.full || t in source.changes ==> t in types
  }

  /** Runs of any kinds may be mixed freely exactly when, on the row of every item of either list, each kind absorbs
  each other. */
  lemma ConvergesExactlyWhenAbsorbing(source: Source, kinds: set<Kind>, db: Database, types: seq<int>)
    requires ValidSource(source) && CoversAll(source, types)
    ensures Converges(source, kinds, db) <==> AllAbsorb(source, kinds, db)
  {
    if AllAbsorb(source, kinds, db) {
      forall history: seq<Config>, final: Config |
        && ValidHistory(source, history) && RunsOf(history, kinds)
        && ValidRun(source, final) && FailureFree(final) && Covers(source, final) && final.kind in kinds
        ensures Run(source, final, Exec(source, history, db)).db == Run(source, final, db).db
      {
        ConvergesIfAbsorbing(source, kinds, history, final, db);
      }
    }
    if Converges(source, kinds, db) {
      forall item, a, b | Known(source, item) && a in kinds && b in kinds
        ensures Absorbs(source, a, b, item, Row(db, item.id))
      {
        OneRunOfEachKind(source, kinds, db, types, item, a, b);
      }
    }
  }

  lemma OneRunOfEachKind(source: Source, kinds: set<Kind>, db: Database, types: seq<int>, item: Item,
                         first: Kind, last: Kind)
    requires ValidSource(source) && CoversAll(source, types) && Known(source, item)
    requires first in kinds && last in kinds && Converges(source, kinds, db)
    ensures Absorbs(source, first, last, item, Row(db, item.id))
  {
    hide EffectIn, Settles, Known, ValidRun, FailureFree, Run, Exec, CleanRun, ValidSource, Covers, CoversAll;
    var c, final := CleanRun(source, first, types), CleanRun(source, last, types);
    CleanRunCovers(source, first, types);
    CleanRunCovers(source, last, types);
    KnownSettles(source, first, item);
    KnownSettles(source, last, item);
    RunEffect(source, c, db, item);
    RunEffect(source, final, Run(source, c, db).db, item);
    RunEffect(source, final, db, item);
    OneRun(source, c, db);
    assert ValidHistory(source, [c]) && RunsOf([c], kinds);
  }

  lemma OneRun(source: Source, c: Config, db: Database)
    requires c.pageSize > 0
    ensures Exec(source, [c], db) == Run(source, c, db).db
  {
    hide Run;
    assert [c][..0] == [];
    assert Exec(source, [c][..0], db) == db;
  }

  lemma CleanRunCovers(source: Source, kind: Kind, types: seq<int>)
    requires ValidSource(source) && CoversAll(source, types)
    ensures
      var c := CleanRun(source, kind, types);
      ValidRun(source, c) && FailureFree(c) && Covers(source, c) && c.kind == kind && c.pageSize > 0
  {
    assert ValidList(source, kind) by {
      SameLists(source, kind);
    }
    CleanRunIsClean(source, kind, types);
  }

  // Both kinds of full run read the same list.
  lemma SameLists(source: Source, kind: Kind)
    requires ValidSource(source)
    ensures ValidList(source, kind)
  {
    var same := if kind.Incremental? then Incremental else All(true);
    assert forall item :: Has(source, kind, item) <==> Has(source, same, item);
  }

  // ----- resuming full runs and incremental runs

  const RESUMING: set<Kind> := {All(true), Incremental}

  ghost predicate AllAgree(source: Source, db: Database) {
    forall item :: Known(source, item) ==> Agree(source, item, Row(db, item.id))
  }

  lemma AgreeIsAbsorbing(source: Source, item: Item, row: Option<Place>)
    ensures KindsAbsorb(source, RESUMING, item, row) <==> Agree(source, item, row)
  {
    EffectInIdempotent(source, All(true), item, row);
    EffectInIdempotent(source, Incremental, item, row);
    AgreeIsSameEffect(source, item, row);
    if KindsAbsorb(source, RESUMING, item, row) {
      assert Absorbs(source, All(true), Incremental, item, row) && Absorbs(source, Incremental, All(true), item, row);
      EffectsCommuteOnlyIfAgree(source, item, row);
    } else {
      hide EffectIn;
    }
  }

  // Those may be mixed freely exactly when both kinds agree on every item of either list.
  lemma MixedConvergesExactlyWhenAgree(source: Source, db: Database, types: seq<int>)
    requires ValidSource(source) && CoversAll(source, types)
    ensures Converges(source, RESUMING, db) <==> AllAgree(source, db)
  {
    ConvergesExactlyWhenAbsorbing(source, RESUMING, db, types);
    hide KindsAbsorb, Agree, Converges;
    forall item: Item
      ensures KindsAbsorb(source, RESUMING, item, Row(db, item.id)) <==> Agree(source, item, Row(db, item.id))
    {
      AgreeIsAbsorbing(source, item, Row(db, item.id));
    }
  }

  lemma MixedConvergesIfAgree(source: Source, history: seq<Config>, final: Config, db: Database)
    requires ValidSource(source) && ValidHistory(source, history) && RunsOf(history, RESUMING)
    requires ValidRun(source, final) && FailureFree(final) && Covers(source, final) && final.kind in RESUMING
    requires AllAgree(source, db)
    ensures Run(source, final, Exec(source, history, db)).db == Run(source, final, db).db
  {
    forall item | Known(source, item)
      ensures KindsAbsorb(source, RESUMING, item, Row(db, item.id))
    {
      AgreeIsAbsorbing(source, item, Row(db, item.id));
    }
    ConvergesIfAbsorbing(source, RESUMING, history, final, db);
  }

  // ----- refreshing full runs as well

  const EVERY_KIND: set<Kind> := {All(true), All(false), Incremental}

  // Saving the stored row of an item on the full list again would not change it.
  ghost predicate Fresh(source: Source, item: Item, row: Option<Place>) {
    Has(source, All(true), item) && item.firstImage.Some? && IsStored(item, row) ==>
      Save(source, item, row) == row.value
  }

  lemma FreshIsAbsorbing(source: Source, item: Item, row: Option<Place>)
    ensures KindsAbsorb(source, EVERY_KIND, item, row) <==> Agree(source, item, row) && Fresh(source, item, row)
  {
    hide EffectIn, Agree, Fresh;
    AgreeIsAbsorbing(source, item, row);
    AgreeIsSameEffect(source, item, row);
    if KindsAbsorb(source, EVERY_KIND, item, row) {
      assert KindsAbsorb(source, RESUMING, item, row);
      assert Absorbs(source, All(false), All(true), item, row);
      RefreshKeepsFresh(source, item, row);
    }
    if Agree(source, item, row) && Fresh(source, item, row) {
      RefreshIsResume(source, item, row);
      forall a, b | a in EVERY_KIND && b in EVERY_KIND
        ensures Absorbs(source, a, b, item, row)
      {
        assert EffectIn(source, a, item, row) == EffectIn(source, b, item, row);
        EffectInIdempotent(source, b, item, row);
      }
    }
  }

  lemma RefreshKeepsFresh(source: Source, item: Item, row: Option<Place>)
    requires Absorbs(source, All(false), All(true), item, row)
    ensures Fresh(source, item, row)
  {
    SavedType(source, item, row);
    hide Save;
  }

  lemma SavedType(source: Source, item: Item, row: Option<Place>)
    ensures Save(source, item, row).contentType == item.contentType
  {
  }

  lemma RefreshIsResume(source: Source, item: Item, row: Option<Place>)
    requires Fresh(source, item, row)
    ensures EffectIn(source, All(false), item, row) == EffectIn(source, All(true), item, row)
  {
    hide Save;
  }

  // All three kinds may be mixed freely exactly when, besides, no stored row would change by being saved again.
  lemma AllKindsConvergeExactly(source: Source, db: Database, types: seq<int>)
    requires ValidSource(source) && CoversAll(source, types)
    ensures
      Converges(source, EVERY_KIND, db) <==>
      AllAgree(source, db) && forall item :: Known(source, item) ==> Fresh(source, item, Row(db, item.id))
  {
    ConvergesExactlyWhenAbsorbing(source, EVERY_KIND, db, types);
    hide KindsAbsorb, Agree, Fresh, Converges;
    forall item: Item
      ensures KindsAbsorb(source, EVERY_KIND, item, Row(db, item.id)) <==>
              Agree(source, item, Row(db, item.id)) && Fresh(source, item, Row(db, item.id))
    {
      FreshIsAbsorbing(source, item, Row(db, item.id));
    }
  }

  lemma EffectsCommuteOnlyIfAgree(source: Source, item: Item, row: Option<Place>)
    requires
      var full := EffectIn(source, All(true), item, row);
      EffectIn(source, Incremental, item, full) == EffectIn(source, Incremental, item, row)
    requires
      var synced := EffectIn(source, Incremental, item, row);
      EffectIn(source, All(true), item, synced) == EffectIn(source, All(true), item, row)
    ensures Agree(source, item, row)
  {
    hide Has;
    if item.modifiedAt.Some? {
      BeforeIrreflexive(item.modifiedAt.value);
    }
  }

  // On an empty database that is: of the items with an image, the full list serves exactly the visible ones of the
  // list of changes.
  lemma EmptyDatabaseConverges(source: Source, types: seq<int>)
    requires ValidSource(source) && CoversAll(source, types)
    ensures
      Converges(source, RESUMING, map[]) <==>
      forall item :: Known(source, item) && item.firstImage.Some? ==>
        (Has(source, All(true), item) <==> Has(source, Incremental, item) && !item.hidden)
  {
    MixedConvergesExactlyWhenAgree(source, map[], types);
    hide Has, Converges;
    forall item: Item
      ensures Agree(source, item, Row(map[], item.id)) <==>
              (item.firstImage.Some? ==>
                 (Has(source, All(true), item) <==> Has(source, Incremental, item) && !item.hidden))
    {
    }
  }

  // The full list is the visible part of the list of changes.
  ghost predicate ListsMatch(source: Source) {
    forall item :: Has(source, All(true), item) <==> Has(source, Incremental, item) && !item.hidden
  }

  // For such lists, on any database: no stored row of a hidden item is active, and none of a visible item with an
  // image is out of date.
  lemma MatchingListsConverge(source: Source, db: Database, types: seq<int>)
    requires ValidSource(source) && CoversAll(source, types) && ListsMatch(source)
    ensures
      Converges(source, RESUMING, db) <==>
      forall item :: Has(source, Incremental, item) && IsStored(item, Row(db, item.id)) ==>
        var row := db[item.id];
        if item.hidden then !row.active else item.firstImage.None? || !Newer(item.modifiedAt, row.modifiedAt)
  {
    hide Has, Converges, ValidSource, CoversAll, Agree, ListsMatch;
    MixedConvergesExactlyWhenAgree(source, db, types);
    forall item
      ensures Known(source, item) <==> Has(source, Incremental, item)
      ensures Has(source, Incremental, item) ==>
        (Agree(source, item, Row(db, item.id)) <==>
          (IsStored(item, Row(db, item.id)) ==>
             var row := db[item.id];
             if item.hidden then !row.active else item.firstImage.None? || !Newer(item.modifiedAt, row.modifiedAt)))
    {
      MatchingItemAgrees(source, db, item);
    }
  }

  lemma MatchingItemAgrees(source: Source, db: Database, item: Item)
    requires ListsMatch(source)
    ensures Known(source, item) <==> Has(source, Incremental, item)
    ensures Has(source, Incremental, item) ==>
      (Agree(source, item, Row(db, item.id)) <==>
        (IsStored(item, Row(db, item.id)) ==>
           var row := db[item.id];
           if item.hidden then !row.active else item.firstImage.None? || !Newer(item.modifiedAt, row.modifiedAt)))
  {
    hide Has;
    assert Has(source, All(true), item) <==> Has(source, Incremental, item) && !item.hidden;
  }

  // Matching lists that do not converge: a stored active row whose item the list of changes hides.
  lemma HiddenItemBreaksMixing(item: Item, row: Place, details: int -> Details)
    requires item.hidden && row.active && row.contentType == item.contentType
    ensures
      var source := Source(map[], map[item.contentType := [item]], details);
      ValidSource(source) && ListsMatch(source) && !Converges(source, RESUMING, map[item.id := row])
  {
    var source := Source(map[], map[item.contentType := [item]], details);
    OneItemSource(source, item);
    MatchingListsConverge(source, map[item.id := row], [item.contentType]);
    assert Has(source, Incremental, item) && IsStored(item, Row(map[item.id := row], item.id));
  }

  // And a stored row older than its item on both lists.
  lemma StaleRowBreaksMixing(item: Item, row: Place, details: int -> Details)
    requires !item.hidden && item.firstImage.Some? && row.contentType == item.contentType
    requires Newer(item.modifiedAt, row.modifiedAt)
    ensures
      var source := Source(map[item.contentType := [item]], map[item.contentType := [item]], details);
      ValidSource(source) && ListsMatch(source) && !Converges(source, RESUMING, map[item.id := row])
  {
    var source := Source(map[item.contentType := [item]], map[item.contentType := [item]], details);
    OneItemSource(source, item);
    MatchingListsConverge(source, map[item.id := row], [item.contentType]);
    assert Has(source, Incremental, item) && IsStored(item, Row(map[item.id := row], item.id));
  }

  lemma OneItemSource(source: Source, item: Item)
    requires source.full == map[] || source.full == map[item.contentType := [item]]
    requires source.changes == map[item.contentType := [item]]
    ensures ValidSource(source)
    ensures forall other :: Has(source, Incremental, other) <==> other == item
    ensures forall other :: Has(source, All(true), other) <==> source.full != map[] && other == item
  {
    assert source.full != map[] ==> item.contentType in source.full;
  }
}
