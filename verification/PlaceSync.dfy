/** Tour API ingestion: the two paging loops, the incremental change detector and the per-record save.

The source is fixed: per content type the items of each of its two list operations, and per content id the
details. Failures are an environment: every list call, detail call and save of a run has an outcome. A run is a
value (`Config`);
`Run` is what it does to the database, step by step as the class `Synchroniser` does it.
 */
module PlaceSync {
  import opened Common

  // ----- records

  type Fields = map<string, Option<string>>

  datatype Image = Image(thumbnail: Option<string>, isMain: bool, order: nat)

  // `counters` stands for the columns a sync never writes (views, ratings).
  datatype Place = Place(
    contentType: int, modifiedAt: Option<string>, active: bool, fields: Fields,
    images: map<string, Image>, info: Option<Fields>, counters: (nat, nat))

  type Database = map<int, Place>

  // A list item, blank values already None. Only the list of changes tells, and only incremental runs ask,
  // whether it is `hidden`.
  datatype Item = Item(
    id: int, contentType: int, firstImage: Option<string>, firstImage2: Option<string>,
    hidden: bool, modifiedAt: Option<string>)

  datatype ImageRow = ImageRow(origin: Option<string>, small: Option<string>)

  // What the detail calls of one content id yield, mapped to columns.
  datatype Details = Details(fields: Fields, images: seq<ImageRow>, info: Option<Fields>)

  // The two list operations, by content type: a full run reads `full`, an incremental run `changes`.
  datatype Source = Source(full: map<int, seq<Item>>, changes: map<int, seq<Item>>, details: int -> Details)

  // ----- saving one record

  function ImageUrls(item: Item, rows: seq<ImageRow>): seq<(string, Option<string>)> {
    if rows != [] then DetailUrls(rows)
    else if item.firstImage.Some? then [(item.firstImage.value, item.firstImage2)]
    else []
  }

  function DetailUrls(rows: seq<ImageRow>): seq<(string, Option<string>)> {
    if rows == [] then [] else DetailUrl(rows[0]) + DetailUrls(rows[1..])
  }

  function DetailUrl(row: ImageRow): seq<(string, Option<string>)> {
    if row.origin.Some? then [(row.origin.value, row.small)]
    else if row.small.Some? then [(row.small.value, row.small)]
    else []
  }

  // update_or_create by URL: images the place already has stay.
  function SaveImages(images: map<string, Image>, urls: seq<(string, Option<string>)>): map<string, Image> {
    if urls == [] then images
    else
      var last := |urls| - 1;
      SaveImages(images, urls[..last])[urls[last].0 := Image(urls[last].1, last == 0, last)]
  }

  function Save(source: Source, item: Item, row: Option<Place>): Place {
    var details := source.details(item.id);
    Place(
      item.contentType, item.modifiedAt, true, details.fields,
      SaveImages(if row.Some? then row.value.images else map[], ImageUrls(item, details.images)),
      if details.info.Some? then details.info else if row.Some? then row.value.info else None,
      if row.Some? then row.value.counters else (0, 0))
  }

  // ----- what a saved record holds

  // The image rows a save goes by: those of the details, or else the first image of the list item.
  function Offered(item: Item, rows: seq<ImageRow>): seq<ImageRow> {
    if rows != [] || item.firstImage.None? then rows else [ImageRow(item.firstImage, item.firstImage2)]
  }

  predicate Shows(row: ImageRow) {
    row.origin.Some? || row.small.Some?
  }

  // The original, else the small version.
  function UrlOf(row: ImageRow): string
    requires Shows(row)
  {
    if row.origin.Some? then row.origin.value else row.small.value
  }

  // Number of rows before row k that show an image.
  ghost function Position(rows: seq<ImageRow>, k: nat): nat
    requires k <= |rows|
  {
    CountBefore(rows, Shows, k)
  }

  // No later row has the URL of row k.
  ghost predicate IsLast(rows: seq<ImageRow>, k: nat): (last: bool)
    requires k < |rows|
    ensures last ==> Shows(rows[k])
  {
    Shows(rows[k]) && forall j :: k < j < |rows| && Shows(rows[j]) ==> UrlOf(rows[j]) != UrlOf(rows[k])
  }

  ghost predicate Offers(rows: seq<ImageRow>, url: string) {
    exists j :: 0 <= j < |rows| && Shows(rows[j]) && UrlOf(rows[j]) == url
  }

  // Every URL offered has the thumbnail and the place of its last row, the first place being the main image, and all
  // other images are as before.
  ghost predicate ImagesHeld(rows: seq<ImageRow>, before: map<string, Image>, after: map<string, Image>) {
    && (forall k: nat :: k < |rows| && IsLast(rows, k) ==>
          && UrlOf(rows[k]) in after
          && after[UrlOf(rows[k])] == Image(rows[k].small, Position(rows, k) == 0, Position(rows, k)))
    && forall url :: !Offers(rows, url) ==>
         (url in after <==> url in before) && (url in before ==> after[url] == before[url])
  }

  // The columns, the type and the time are the source's, the place is active, and what a sync never writes stays.
  ghost predicate Holds(source: Source, item: Item, row: Option<Place>, saved: Place) {
    var details := source.details(item.id);
    && saved.fields == details.fields
    && saved.contentType == item.contentType && saved.modifiedAt == item.modifiedAt && saved.active
    && (details.info.Some? ==> saved.info == details.info)
    && (details.info.None? ==> saved.info == if row.Some? then row.value.info else None)
    && saved.counters == (if row.Some? then row.value.counters else (0, 0))
    && ImagesHeld(Offered(item, details.images), if row.Some? then row.value.images else map[], saved.images)
  }

  lemma {:induction false} DetailUrlsAppend(rows: seq<ImageRow>, row: ImageRow)
    ensures DetailUrls(rows + [row]) == DetailUrls(rows) + DetailUrl(row)
  {
    hide DetailUrl;
    var all := rows + [row];
    if rows == [] {
      assert all == [row] && all[1..] == [];
      assert DetailUrl(row) + [] == [] + DetailUrl(row);
    } else {
      DetailUrlsAppend(rows[1..], row);
      assert all[1..] == rows[1..] + [row] && all[0] == rows[0];
      assert DetailUrl(rows[0]) + (DetailUrls(rows[1..]) + DetailUrl(row)) ==
             DetailUrl(rows[0]) + DetailUrls(rows[1..]) + DetailUrl(row);
    }
  }

  lemma DetailUrlIs(row: ImageRow)
    ensures DetailUrl(row) == if Shows(row) then [(UrlOf(row), row.small)] else []
  {
  }

  lemma {:induction false} UrlsCounted(rows: seq<ImageRow>)
    ensures |DetailUrls(rows)| == Position(rows, |rows|)
  {
    if rows != [] {
      var init, row := rows[..|rows| - 1], rows[|rows| - 1];
      assert rows == init + [row];
      UrlsCounted(init);
      DetailUrlsAppend(init, row);
      DetailUrlIs(row);
      CountBeforePrefix(init, [row], Shows, |init|);
      CountBeforeStep(rows, Shows, |init|);
    }
  }

  lemma {:induction false} ImagesAreHeld(rows: seq<ImageRow>, images: map<string, Image>)
    ensures ImagesHeld(rows, images, SaveImages(images, DetailUrls(rows)))
  {
    hide ImagesHeld;
    if rows == [] {
      NothingOffered(images);
    } else {
      var init, row := rows[..|rows| - 1], rows[|rows| - 1];
      assert rows == init + [row];
      ImagesAreHeld(init, images);
      DetailUrlsAppend(init, row);
      DetailUrlIs(row);
      UrlsCounted(init);
      var urls := DetailUrls(init);
      if Shows(row) {
        assert (urls + [(UrlOf(row), row.small)])[..|urls|] == urls;
        OneMoreHeld(init, row, images, SaveImages(images, urls));
      } else {
        assert urls + [] == urls;
        NoMoreHeld(init, row, images, SaveImages(images, urls));
      }
    }
  }

  lemma NothingOffered(images: map<string, Image>)
    ensures ImagesHeld([], images, images)
  {
  }

  lemma OneMoreHeld(rows: seq<ImageRow>, row: ImageRow, before: map<string, Image>, after: map<string, Image>)
    requires ImagesHeld(rows, before, after) && Shows(row)
    ensures
      var n := Position(rows, |rows|);
      ImagesHeld(rows + [row], before, after[UrlOf(row) := Image(row.small, n == 0, n)])
  {
    hide CountBefore, IsLast, Offers;
    var all, n := rows + [row], Position(rows, |rows|);
    var added := after[UrlOf(row) := Image(row.small, n == 0, n)];
    assert all[|rows|] == row;
    CountBeforePrefix(rows, [row], Shows, |rows|);
    forall k: nat | k < |all| && IsLast(all, k)
      ensures UrlOf(all[k]) in added
      ensures added[UrlOf(all[k])] == Image(all[k].small, Position(all, k) == 0, Position(all, k))
    {
      LastOfPrefix(rows, row, k);
      if k < |rows| {
        CountBeforePrefix(rows, [row], Shows, k);
      }
    }
    forall url | !Offers(all, url)
      ensures (url in added <==> url in before) && (url in before ==> added[url] == before[url])
    {
      OffersPrefix(rows, row, url);
    }
  }

  lemma NoMoreHeld(rows: seq<ImageRow>, row: ImageRow, before: map<string, Image>, after: map<string, Image>)
    requires ImagesHeld(rows, before, after) && !Shows(row)
    ensures ImagesHeld(rows + [row], before, after)
  {
    hide CountBefore, IsLast, Offers;
    var all := rows + [row];
    forall k: nat | k < |all| && IsLast(all, k)
      ensures UrlOf(all[k]) in after
      ensures after[UrlOf(all[k])] == Image(all[k].small, Position(all, k) == 0, Position(all, k))
    {
      LastOfPrefix(rows, row, k);
      CountBeforePrefix(rows, [row], Shows, k);
    }
    forall url | !Offers(all, url)
      ensures (url in after <==> url in before) && (url in before ==> after[url] == before[url])
    {
      OffersPrefix(rows, row, url);
    }
  }

  lemma LastOfPrefix(rows: seq<ImageRow>, row: ImageRow, k: nat)
    requires k <= |rows| && IsLast(rows + [row], k)
    ensures k < |rows| ==> IsLast(rows, k) && (Shows(row) ==> UrlOf(row) != UrlOf(rows[k]))
    ensures k == |rows| ==> Shows(row)
  {
    var all := rows + [row];
    assert all[|rows|] == row;
    assert forall j :: 0 <= j < |rows| ==> all[j] == rows[j];
  }

  lemma OffersPrefix(rows: seq<ImageRow>, row: ImageRow, url: string)
    ensures Offers(rows + [row], url) <==> Offers(rows, url) || (Shows(row) && UrlOf(row) == url)
  {
    var all := rows + [row];
    assert all[|rows|] == row;
    if j :| 0 <= j < |rows| && Shows(rows[j]) && UrlOf(rows[j]) == url {
      assert all[j] == rows[j];
    }
  }

  lemma SaveHolds(source: Source, item: Item, row: Option<Place>)
    ensures Holds(source, item, row, Save(source, item, row))
    ensures
      var offered := Offered(item, source.details(item.id).images);
      |ImageUrls(item, source.details(item.id).images)| == Position(offered, |offered|)
  {
    hide ImagesHeld, SaveImages;
    var details := source.details(item.id);
    var offered := Offered(item, details.images);
    assert ImageUrls(item, details.images) == DetailUrls(offered) by {
      UrlsOffered(item, details.images);
    }
    ImagesAreHeld(offered, if row.Some? then row.value.images else map[]);
    UrlsCounted(offered);
  }

  lemma UrlsOffered(item: Item, rows: seq<ImageRow>)
    ensures ImageUrls(item, rows) == DetailUrls(Offered(item, rows))
  {
  }

  // ----- runs

  datatype ListOutcome = Listed | ListFailed | ListKeysExhausted

  datatype DetailOutcome = Fetched | DetailFailed | DetailKeysExhausted

  // Outcomes by pass (position in the type list) and page, or pass and content id.
  datatype Environment = Environment(
    list: (int, int) -> ListOutcome, detail: (int, int) -> DetailOutcome, saves: (int, int) -> bool)

  datatype Kind = All(skipExisting: bool) | Incremental

  // `listing` is the order in which the source serves a type in this run.
  datatype Config = Config(
    kind: Kind, types: seq<int>, pageSize: nat, maxPages: Option<int>, dryRun: bool,
    listing: int -> seq<Item>, env: Environment)

  datatype Summary = Summary(
    fetched: nat, skippedNoImage: nat, skippedExisting: nat, created: nat, updated: nat,
    imagesSaved: nat, infoSaved: nat, deactivated: nat, skippedUnchanged: nat,
    skippedDetailFailed: nat, skippedSaveFailed: nat)
  {
    function Add(other: Summary): Summary {
      Summary(
        fetched + other.fetched, skippedNoImage + other.skippedNoImage, skippedExisting + other.skippedExisting,
        created + other.created, updated + other.updated, imagesSaved + other.imagesSaved, infoSaved + other.infoSaved,
        deactivated + other.deactivated, skippedUnchanged + other.skippedUnchanged,
        skippedDetailFailed + other.skippedDetailFailed,
        skippedSaveFailed + other.skippedSaveFailed)
    }
  }

  const EMPTY := Summary(0, 0, 0, 0, 0, 0, 0, 0, 0, 0, 0)

  // The database and the run's bookkeeping: the summary of the type at hand, the total, whether the run
  // was aborted, and the items handled for the type at hand.
  datatype State = State(db: Database, sub: Summary, total: Summary, aborted: bool, seen: seq<Item>)

  // Stored ids of a type with their modification times, read when the pass over the type starts.
  function Snapshot(db: Database, contentType: int): map<int, Option<string>> {
    map id | id in db && db[id].contentType == contentType :: db[id].modifiedAt
  }

  // Python's string order.
  predicate Before(a: string, b: string) {
    b != "" && (a == "" || a[0] < b[0] || (a[0] == b[0] && Before(a[1..], b[1..])))
  }

  predicate Newer(modifiedAt: Option<string>, stored: Option<string>) {
    modifiedAt.Some? && (stored.None? || Before(stored.value, modifiedAt.value))
  }

  function Row(db: Database, id: int): Option<Place> {
    if id in db then Some(db[id]) else None
  }

  function SaveItem(source: Source, item: Item, st: State): State {
    var details := source.details(item.id);
    var created := item.id !in st.db;
    st.(db := st.db[item.id := Save(source, item, Row(st.db, item.id))],
        sub := st.sub.(created := st.sub.created + if created then 1 else 0,
                       updated := st.sub.updated + if created then 0 else 1,
                       imagesSaved := st.sub.imagesSaved + |ImageUrls(item, details.images)|,
                       infoSaved := st.sub.infoSaved + if details.info.Some? then 1 else 0))
  }

  // One list item: image filter, skip of stored ids, details, save.
  function ListItem(source: Source, c: Config, pass: int, known: map<int, Option<string>>, item: Item, st: State): State
  {
    var st1 := st.(sub := st.sub.(fetched := st.sub.fetched + 1));
    if item.firstImage.None? then
      st1.(sub := st1.sub.(skippedNoImage := st1.sub.skippedNoImage + 1))
    else if c.kind == All(true) && item.id in known then
      st1.(sub := st1.sub.(skippedExisting := st1.sub.skippedExisting + 1))
    else if c.dryRun then st1
    else
      match c.env.detail(pass, item.id)
      case DetailKeysExhausted => st1.(aborted := true)
      case DetailFailed => st1.(sub := st1.sub.(skippedDetailFailed := st1.sub.skippedDetailFailed + 1))
      case Fetched =>
        if c.env.saves(pass, item.id) then SaveItem(source, item, st1)
        else st1.(sub := st1.sub.(skippedSaveFailed := st1.sub.skippedSaveFailed + 1))
  }

  // One incremental item: soft delete, new, changed or unchanged.
  function SyncItem(source: Source, c: Config, pass: int, known: map<int, Option<string>>, item: Item, st: State): State
  {
    if item.hidden then
      if item.id in known then
        var db := if !c.dryRun && item.id in st.db then st.db[item.id := st.db[item.id].(active := false)] else st.db;
        st.(db := db, sub := st.sub.(deactivated := st.sub.deactivated + 1))
      else st
    else if item.id !in known || Newer(item.modifiedAt, known[item.id]) then
      ListItem(source, c, pass, known, item, st)
    else
      st.(sub := st.sub.(skippedUnchanged := st.sub.skippedUnchanged + 1))
  }

  function HandleItem(source: Source, c: Config, pass: int, known: map<int, Option<string>>, item: Item,
                      st: State): State
  {
    var st1 := st.(seen := st.seen + [item]);
    if c.kind.Incremental? then SyncItem(source, c, pass, known, item, st1)
    else ListItem(source, c, pass, known, item, st1)
  }

  function HandleItems(source: Source, c: Config, pass: int, known: map<int, Option<string>>,
                       items: seq<Item>, st: State): State
  {
    if items == [] || st.aborted then st
    else HandleItems(source, c, pass, known, items[1..], HandleItem(source, c, pass, known, items[0], st))
  }

  function Pages(source: Source, c: Config, pass: int, contentType: int, known: map<int, Option<string>>,
                 page: int, offset: nat, st: State): State
    requires c.pageSize > 0
    decreases |c.listing(contentType)| - offset
  {
    var items := Page(c.listing(contentType), offset, c.pageSize);
    if c.maxPages.Some? && page > c.maxPages.value then st
    else if c.env.list(pass, page) == ListKeysExhausted then st.(aborted := true)
    else if c.env.list(pass, page) == ListFailed || items == [] then st
    else
      var st1 := HandleItems(source, c, pass, known, items, st);
      if st1.aborted || |items| < c.pageSize then st1
      else Pages(source, c, pass, contentType, known, page + 1, offset + c.pageSize, st1)
  }

  // List calls made by `Pages`.
  function ListCalls(source: Source, c: Config, pass: int, contentType: int, known: map<int, Option<string>>,
                     page: int, offset: nat, st: State): nat
    requires c.pageSize > 0
    decreases |c.listing(contentType)| - offset
  {
    var items := Page(c.listing(contentType), offset, c.pageSize);
    if c.maxPages.Some? && page > c.maxPages.value then 0
    else if c.env.list(pass, page) != Listed || items == [] then 1
    else
      var st1 := HandleItems(source, c, pass, known, items, st);
      if st1.aborted || |items| < c.pageSize then 1
      else 1 + ListCalls(source, c, pass, contentType, known, page + 1, offset + c.pageSize, st1)
  }

  function PassStart(st: State): State {
    st.(sub := EMPTY, seen := [])
  }

  function Pass(source: Source, c: Config, pass: nat, st: State): State
    requires c.pageSize > 0 && pass < |c.types|
  {
    var contentType := c.types[pass];
    var done := Pages(source, c, pass, contentType, Snapshot(st.db, contentType), 1, 0, PassStart(st));
    if done.aborted then done else done.(total := done.total.Add(done.sub))
  }

  // The passes from number `pass` on.
  function Passes(source: Source, c: Config, pass: nat, st: State): State
    requires c.pageSize > 0 && pass <= |c.types|
    decreases |c.types| - pass
  {
    if pass == |c.types| || st.aborted then st else Passes(source, c, pass + 1, Pass(source, c, pass, st))
  }

  function Start(db: Database): State {
    State(db, EMPTY, EMPTY, false, [])
  }

  function Run(source: Source, c: Config, db: Database): State
    requires c.pageSize > 0
  {
    Passes(source, c, 0, Start(db))
  }

  // ----- the synchroniser

  // An exception that ends the run is `aborted`; the ghost fields record what `State` records.
  class Synchroniser {
    const source: Source
    var db: Database
    var sub: Summary
    var total: Summary
    var aborted: bool
    ghost var seen: seq<Item>
    ghost var calls: nat  // list calls of the pass at hand

    ghost function Now(): State
      reads this
    {
      State(db, sub, total, aborted, seen)
    }

    constructor (source: Source, db: Database)
      ensures this.source == source && Now() == Start(db)
    {
      this.source, this.db := source, db;
      sub, total, aborted, seen, calls := EMPTY, EMPTY, false, [], 0;
    }

    method SaveRecord(item: Item)
      modifies this
      ensures calls == old(calls)
      ensures Now() == SaveItem(source, item, old(Now()))
      ensures item.id in db && Holds(source, item, Row(old(db), item.id), db[item.id])
    {
      hide Holds, Save, ImageUrls;
      SaveHolds(source, item, Row(db, item.id));
      var details := source.details(item.id);
      var created := item.id !in db;
      db := db[item.id := Save(source, item, Row(db, item.id))];
      if created {
        sub := sub.(created := sub.created + 1);
      } else {
        sub := sub.(updated := sub.updated + 1);
      }
      sub := sub.(imagesSaved := sub.imagesSaved + |ImageUrls(item, details.images)|);
      if details.info.Some? {
        sub := sub.(infoSaved := sub.infoSaved + 1);
      }
    }

    method ProcessListItem(c: Config, pass: int, known: map<int, Option<string>>, item: Item)
      requires !aborted
      modifies this
      ensures calls == old(calls)
      ensures Now() == ListItem(source, c, pass, known, item, old(Now()))
    {
      sub := sub.(fetched := sub.fetched + 1);
      if item.firstImage.None? {
        sub := sub.(skippedNoImage := sub.skippedNoImage + 1);
        return;
      }
      if c.kind == All(true) && item.id in known {
        sub := sub.(skippedExisting := sub.skippedExisting + 1);
        return;
      }
      if c.dryRun {
        return;
      }
      var outcome := c.env.detail(pass, item.id);
      match outcome
      case DetailKeysExhausted =>
        aborted := true;
      case DetailFailed =>
        sub := sub.(skippedDetailFailed := sub.skippedDetailFailed + 1);
      case Fetched =>
        if c.env.saves(pass, item.id) {
          SaveRecord(item);
        } else {
          sub := sub.(skippedSaveFailed := sub.skippedSaveFailed + 1);
        }
    }

    method ProcessSyncItem(c: Config, pass: int, known: map<int, Option<string>>, item: Item)
      requires !aborted
      modifies this
      ensures calls == old(calls)
      ensures Now() == SyncItem(source, c, pass, known, item, old(Now()))
    {
      if item.hidden {
        if item.id in known {
          if !c.dryRun && item.id in db {
            db := db[item.id := db[item.id].(active := false)];
          }
          sub := sub.(deactivated := sub.deactivated + 1);
        }
        return;
      }
      if item.id !in known {
        ProcessListItem(c, pass, known, item);
        return;
      }
      if Newer(item.modifiedAt, known[item.id]) {
        ProcessListItem(c, pass, known, item);
      } else {
        sub := sub.(skippedUnchanged := sub.skippedUnchanged + 1);
      }
    }

    method ProcessPage(c: Config, pass: int, known: map<int, Option<string>>, items: seq<Item>)
      requires !aborted
      modifies this
      ensures calls == old(calls)
      ensures Now() == HandleItems(source, c, pass, known, items, old(Now()))
    {
      var i := 0;
      while i < |items| && !aborted
        invariant 0 <= i <= |items|
        invariant calls == old(calls)
        invariant HandleItems(source, c, pass, known, items[i..], Now()) ==
                  HandleItems(source, c, pass, known, items, old(Now()))
      {
        assert items[i..][0] == items[i] && items[i..][1..] == items[i + 1..];
        seen := seen + [items[i]];
        if c.kind.Incremental? {
          ProcessSyncItem(c, pass, known, items[i]);
        } else {
          ProcessListItem(c, pass, known, items[i]);
        }
        i := i + 1;
      }
    }

    method SyncType(c: Config, pass: nat)
      requires c.pageSize > 0 && pass < |c.types| && !aborted
      modifies this
      ensures Now() == Pass(source, c, pass, old(Now()))
      ensures calls == ListCalls(source, c, pass, c.types[pass], Snapshot(old(db), c.types[pass]), 1, 0,
                                 PassStart(old(Now())))
    {
      hide HandleItems, HandleItem, Snapshot, Page;
      var contentType := c.types[pass];
      var known := Snapshot(db, contentType);
      sub, seen, calls := EMPTY, [], 0;
      ghost var start := Now();
      var page, offset := 1, 0;
      while c.maxPages.None? || page <= c.maxPages.value
        invariant offset >= 0 && !aborted
        invariant Pages(source, c, pass, contentType, known, page, offset, Now()) ==
                  Pages(source, c, pass, contentType, known, 1, 0, start)
        invariant calls + ListCalls(source, c, pass, contentType, known, page, offset, Now()) ==
                  ListCalls(source, c, pass, contentType, known, 1, 0, start)
        decreases |c.listing(contentType)| - offset
      {
        calls := calls + 1;
        var outcome := c.env.list(pass, page);
        if outcome == ListKeysExhausted {
          aborted := true;
          return;
        }
        var items := if outcome == ListFailed then [] else Page(c.listing(contentType), offset, c.pageSize);
        if items == [] {
          break;
        }
        NoPageBehindTheEnd(c.listing(contentType), offset, c.pageSize);
        ProcessPage(c, pass, known, items);
        if aborted {
          return;
        }
        if |items| < c.pageSize {
          break;
        }
        page, offset := page + 1, offset + c.pageSize;
      }
      total := total.Add(sub);
    }

    method SyncAllTypes(c: Config)
      requires c.pageSize > 0
      modifies this
      ensures Now() == Run(source, c, old(db))
    {
      sub, total, aborted, seen, calls := EMPTY, EMPTY, false, [], 0;
      var pass := 0;
      while pass < |c.types| && !aborted
        invariant 0 <= pass <= |c.types|
        invariant Passes(source, c, pass, Now()) == Run(source, c, old(db))
      {
        SyncType(c, pass);
        pass := pass + 1;
      }
    }
  }
}
