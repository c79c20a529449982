/** What the counters and the modification times of a synchronisation run say. */
module SyncAccounts {
  import opened Common
  import opened PlaceSync
  import opened SyncConvergence

  // ----- the paging loop

  // Neither the list calls nor the details of this pass fail for good.
  ghost predicate Steady(c: Config, pass: int) {
    && (forall page :: c.env.list(pass, page) == Listed)
    && forall id :: c.env.detail(pass, id) != DetailKeysExhausted
  }

  lemma {:induction false} ItemsSeen(source: Source, c: Config, pass: int, known: map<int, Option<string>>,
                                     items: seq<Item>, st: State)
    requires Steady(c, pass) && !st.aborted
    ensures
      var after := HandleItems(source, c, pass, known, items, st);
      !after.aborted && after.seen == st.seen + items
  {
    if items == [] {
      assert st.seen + items == st.seen;
    } else {
      var st1 := HandleItem(source, c, pass, known, items[0], st);
      assert !st1.aborted && st1.seen == st.seen + [items[0]];
      ItemsSeen(source, c, pass, known, items[1..], st1);
      assert st.seen + items == st.seen + [items[0]] + items[1..];
    }
  }

  // List calls for what remains behind the offset: one a page, and one more for the page that comes up short.
  function CallsNeeded(remaining: nat, pageSize: nat): (n: nat)
    requires pageSize > 0
    ensures n > 0
  {
    if remaining < pageSize then 1 else 1 + CallsNeeded(remaining - pageSize, pageSize)
  }

  lemma {:induction false} CallsNeededIsQuotient(remaining: nat, pageSize: nat)
    requires pageSize > 0
    ensures CallsNeeded(remaining, pageSize) == remaining / pageSize + 1
  {
    if remaining >= pageSize {
      CallsNeededIsQuotient(remaining - pageSize, pageSize);
      var q, m := (remaining - pageSize) / pageSize, (remaining - pageSize) % pageSize;
      assert remaining == (q + 1) * pageSize + m;
      QuotientIs(remaining, pageSize, q + 1, m);
    } else {
      QuotientIs(remaining, pageSize, 0, remaining);
    }
  }

  lemma QuotientIs(a: nat, n: nat, q: nat, m: nat)
    requires n > 0 && a == q * n + m && m < n
    ensures a / n == q
  {
    var d: int := a / n - q;
    assert d * n == m - a % n;
    assert d >= 1 ==> d * n >= n;
    assert d <= -1 ==> d * n + n <= 0;
  }

  // Pages the cap still allows from `page` on.
  function Allowed(c: Config, page: int, needed: nat): nat {
    if c.maxPages.None? then needed
    else if page > c.maxPages.value then 0
    else if c.maxPages.value - page + 1 < needed then c.maxPages.value - page + 1
    else needed
  }

  // Position reached after so many pages.
  function Reach(offset: nat, pageSize: nat, pages: nat, length: nat): nat
    decreases pages
  {
    if pages == 0 then offset
    else if offset + pageSize >= length then length
    else Reach(offset + pageSize, pageSize, pages - 1, length)
  }

  lemma {:induction false} ReachIsProduct(offset: nat, pageSize: nat, pages: nat, length: nat)
    requires offset <= length
    ensures Reach(offset, pageSize, pages, length) == Least(offset + pages * pageSize, length)
    decreases pages
  {
    if pages > 0 {
      assert pages * pageSize == (pages - 1) * pageSize + pageSize;
      if offset + pageSize < length {
        ReachIsProduct(offset + pageSize, pageSize, pages - 1, length);
      }
    }
  }

  function Least(a: nat, b: nat): nat {
    if a < b then a else b
  }

  // One turn of the loop: past the cap, at the last page, or before another page.
  lemma SteadyTurn(source: Source, c: Config, pass: int, contentType: int, known: map<int, Option<string>>,
                   page: int, offset: nat, st: State)
    requires c.pageSize > 0 && offset <= |c.listing(contentType)| && Steady(c, pass) && !st.aborted
    ensures
      var all := c.listing(contentType);
      var st1 := HandleItems(source, c, pass, known, Page(all, offset, c.pageSize), st);
      var calls := ListCalls(source, c, pass, contentType, known, page, offset, st);
      var end := PagesEnd(source, c, pass, contentType, known, page, offset, st);
      && !st1.aborted
      && (if c.maxPages.Some? && page > c.maxPages.value then calls == 0 && end == offset
          else if offset + c.pageSize > |all| then calls == 1 && end == |all|
          else && calls == 1 + ListCalls(source, c, pass, contentType, known, page + 1, offset + c.pageSize, st1)
               && end == PagesEnd(source, c, pass, contentType, known, page + 1, offset + c.pageSize, st1))
  {
    hide HandleItems, HandleItem;
    ItemsSeen(source, c, pass, known, Page(c.listing(contentType), offset, c.pageSize), st);
  }

  lemma {:induction false} CallsExact(source: Source, c: Config, pass: int, contentType: int,
                                      known: map<int, Option<string>>, page: int, offset: nat, st: State)
    requires c.pageSize > 0 && offset <= |c.listing(contentType)| && Steady(c, pass) && !st.aborted
    ensures ListCalls(source, c, pass, contentType, known, page, offset, st) ==
            Allowed(c, page, CallsNeeded(|c.listing(contentType)| - offset, c.pageSize))
    decreases |c.listing(contentType)| - offset
  {
    hide HandleItems, ListCalls, PagesEnd, Steady, Page;
    var all := c.listing(contentType);
    SteadyTurn(source, c, pass, contentType, known, page, offset, st);
    if offset + c.pageSize <= |all| {
      var st1 := HandleItems(source, c, pass, known, Page(all, offset, c.pageSize), st);
      CallsExact(source, c, pass, contentType, known, page + 1, offset + c.pageSize, st1);
    }
  }

  lemma {:induction false} EndExact(source: Source, c: Config, pass: int, contentType: int,
                                    known: map<int, Option<string>>, page: int, offset: nat, st: State)
    requires c.pageSize > 0 && offset <= |c.listing(contentType)| && Steady(c, pass) && !st.aborted
    ensures PagesEnd(source, c, pass, contentType, known, page, offset, st) ==
            Reach(offset, c.pageSize, ListCalls(source, c, pass, contentType, known, page, offset, st),
                  |c.listing(contentType)|)
    decreases |c.listing(contentType)| - offset
  {
    hide HandleItems, ListCalls, PagesEnd, Steady, Page;
    var all := c.listing(contentType);
    SteadyTurn(source, c, pass, contentType, known, page, offset, st);
    if offset + c.pageSize <= |all| {
      var st1 := HandleItems(source, c, pass, known, Page(all, offset, c.pageSize), st);
      EndExact(source, c, pass, contentType, known, page + 1, offset + c.pageSize, st1);
    }
  }

  // Without list failures a pass makes one list call a full page and one more, up to the cap, and handles
  // each covered item once, in order.
  lemma PassPagesExactly(source: Source, c: Config, pass: nat, st: State)
    requires c.pageSize > 0 && pass < |c.types| && Steady(c, pass) && !st.aborted
    ensures
      var t := c.types[pass];
      var all, calls := c.listing(t), ListCalls(source, c, pass, t, Snapshot(st.db, t), 1, 0, PassStart(st));
      && calls == Allowed(c, 1, |all| / c.pageSize + 1)
      && Pass(source, c, pass, st).seen == all[..Least(calls * c.pageSize, |all|)]
  {
    var t := c.types[pass];
    var all, known := c.listing(t), Snapshot(st.db, t);
    var end := PagesEnd(source, c, pass, t, known, 1, 0, PassStart(st));
    CallsExact(source, c, pass, t, known, 1, 0, PassStart(st));
    CallsNeededIsQuotient(|all|, c.pageSize);
    EndExact(source, c, pass, t, known, 1, 0, PassStart(st));
    ReachIsProduct(0, c.pageSize, ListCalls(source, c, pass, t, known, 1, 0, PassStart(st)), |all|);
    PagesAreItems(source, c, pass, t, known, 1, 0, PassStart(st));
    ItemsSeen(source, c, pass, known, all[0..end], PassStart(st));
  }

  // ----- conservation of the counters

  ghost predicate Balanced(s: Summary) {
    s.fetched ==
      s.skippedNoImage + s.skippedExisting + s.skippedDetailFailed + s.skippedSaveFailed + s.created + s.updated
  }

  lemma ListItemConserves(source: Source, c: Config, pass: int, known: map<int, Option<string>>, item: Item, st: State)
    requires !c.dryRun && Balanced(st.sub)
    ensures
      var after := ListItem(source, c, pass, known, item, st);
      && (after.aborted || Balanced(after.sub))
      && |after.db| - after.sub.created == |st.db| - st.sub.created
      && after.total == st.total
  {
    hide SaveItem;
    var st1 := st.(sub := st.sub.(fetched := st.sub.fetched + 1));
    SaveItemCounts(source, item, st1);
  }

  // A save counts one place, created if the table grows and updated otherwise.
  lemma SaveItemCounts(source: Source, item: Item, st: State)
    ensures
      var after := SaveItem(source, item, st);
      var created, updated := after.sub.created - st.sub.created, after.sub.updated - st.sub.updated;
      && created + updated == 1
      && |after.db| == |st.db| + created
      && after.total == st.total && after.aborted == st.aborted
      && after.sub == st.sub.(created := after.sub.created, updated := after.sub.updated,
                              imagesSaved := after.sub.imagesSaved, infoSaved := after.sub.infoSaved)
  {
  }

  lemma ItemConserves(source: Source, c: Config, pass: int, known: map<int, Option<string>>, item: Item, st: State)
    requires !c.dryRun && Balanced(st.sub)
    ensures
      var after := HandleItem(source, c, pass, known, item, st);
      && (after.aborted || Balanced(after.sub))
      && |after.db| - after.sub.created == |st.db| - st.sub.created
      && after.total == st.total
  {
    ListItemConserves(source, c, pass, known, item, st.(seen := st.seen + [item]));
  }

  lemma {:induction false} ItemsConserve(source: Source, c: Config, pass: int, known: map<int, Option<string>>,
                                         items: seq<Item>, st: State)
    requires !c.dryRun && Balanced(st.sub)
    ensures
      var after := HandleItems(source, c, pass, known, items, st);
      && (after.aborted || Balanced(after.sub))
      && |after.db| - after.sub.created == |st.db| - st.sub.created
      && after.total == st.total
  {
    if items != [] && !st.aborted {
      var st1 := HandleItem(source, c, pass, known, items[0], st);
      ItemConserves(source, c, pass, known, items[0], st);
      if st1.aborted {
        assert HandleItems(source, c, pass, known, items[1..], st1) == st1;
      } else {
        ItemsConserve(source, c, pass, known, items[1..], st1);
      }
    }
  }

  lemma PassConserves(source: Source, c: Config, pass: nat, st: State)
    requires !c.dryRun && c.pageSize > 0 && pass < |c.types| && Balanced(st.total)
    ensures
      var after := Pass(source, c, pass, st);
      !after.aborted ==> Balanced(after.total) && |after.db| - after.total.created == |st.db| - st.total.created
  {
    var t := c.types[pass];
    var known, start := Snapshot(st.db, t), PassStart(st);
    var items := c.listing(t)[0..PagesEnd(source, c, pass, t, known, 1, 0, start)];
    PagesAreItems(source, c, pass, t, known, 1, 0, start);
    ItemsConserve(source, c, pass, known, items, start);
  }

  lemma {:induction false} PassesConserve(source: Source, c: Config, pass: nat, st: State)
    requires !c.dryRun && c.pageSize > 0 && pass <= |c.types| && Balanced(st.total)
    ensures
      var after := Passes(source, c, pass, st);
      !after.aborted ==> Balanced(after.total) && |after.db| - after.total.created == |st.db| - st.total.created
    decreases |c.types| - pass
  {
    if pass < |c.types| && !st.aborted {
      var st1 := Pass(source, c, pass, st);
      PassConserves(source, c, pass, st);
      if !st1.aborted {
        PassesConserve(source, c, pass + 1, st1);
      }
    }
  }

  // A completed run that writes: what it fetched is what it skipped, created and updated, and the table grew
  // by what it created.
  lemma RunConserves(source: Source, c: Config, db: Database)
    requires !c.dryRun && c.pageSize > 0 && !Run(source, c, db).aborted
    ensures
      var after := Run(source, c, db);
      Balanced(after.total) && |after.db| == |db| + after.total.created
  {
    PassesConserve(source, c, 0, Start(db));
  }
}
