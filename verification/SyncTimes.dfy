/** Modification times under incremental runs: they only advance, a row changes only when its time does, and
after a failure-free run the same list brings nothing new.
 */
module SyncTimes {
  import opened Common
  import opened PlaceSync
  import opened SyncConvergence

  // ----- times advance

  // None is lowest.
  predicate AtMost(a: Option<string>, b: Option<string>) {
    a == b || Newer(b, a)
  }

  // The time stays or strictly increases, and while it stays only `active` may change.
  predicate Advances(p: Place, q: Place) {
    && AtMost(p.modifiedAt, q.modifiedAt)
    && (p.modifiedAt == q.modifiedAt ==> q == p.(active := q.active))
  }

  lemma {:induction false} BeforeTransitive(a: string, b: string, c: string)
    requires Before(a, b) && Before(b, c)
    ensures Before(a, c)
  {
    if a != "" && a[0] == b[0] == c[0] {
      BeforeTransitive(a[1..], b[1..], c[1..]);
    }
  }

  lemma AdvancesTransitive(p: Place, q: Place, r: Place)
    requires Advances(p, q) && Advances(q, r)
    ensures Advances(p, r)
  {
    if Newer(q.modifiedAt, p.modifiedAt) && Newer(r.modifiedAt, q.modifiedAt) && p.modifiedAt.Some? {
      BeforeTransitive(p.modifiedAt.value, q.modifiedAt.value, r.modifiedAt.value);
    }
    if p.modifiedAt.Some? {
      BeforeIrreflexive(p.modifiedAt.value);
    }
    if q.modifiedAt.Some? {
      BeforeIrreflexive(q.modifiedAt.value);
    }
  }

  lemma EffectAdvances(source: Source, item: Item, p: Place)
    requires p.contentType == item.contentType
    ensures
      var after := Effect(source, Incremental, item, Some(p));
      after.Some? && Advances(p, after.value) && after.value.contentType == p.contentType
  {
    if p.modifiedAt.Some? {
      BeforeIrreflexive(p.modifiedAt.value);
    }
  }

  // A fixed type per content id.
  ghost predicate Typed(typeOf: int -> int, source: Source, db: Database) {
    && (forall item :: Has(source, Incremental, item) ==> item.contentType == typeOf(item.id))
    && forall id :: id in db ==> db[id].contentType == typeOf(id)
  }

  // One incremental run, whatever fails in it.
  lemma RunAdvances(typeOf: int -> int, source: Source, c: Config, db: Database, id: int)
    requires ValidRun(source, c) && c.kind == Incremental && Typed(typeOf, source, db)
    ensures
      var after := Run(source, c, db).db;
      && (id in db ==> id in after && Advances(db[id], after[id]))
      && (id in after ==> after[id].contentType == typeOf(id))
  {
    if item :| Has(source, Incremental, item) && item.id == id {
      RunTouches(source, c, db, item);
      if id in db {
        EffectAdvances(source, item, db[id]);
      }
      assert Row(db, id) == if id in db then Some(db[id]) else None;
    } else {
      PassesFrame(source, c, 0, Start(db), id);
      assert Row(Run(source, c, db).db, id) == Row(db, id);
    }
  }

  // Incremental runs over sources that change between runs.
  function ExecAll(runs: seq<(Source, Config)>, db: Database): Database
    requires forall r :: r in runs ==> r.1.pageSize > 0
  {
    if runs == [] then db
    else
      var last := |runs| - 1;
      Run(runs[last].0, runs[last].1, ExecAll(runs[..last], db)).db
  }

  ghost predicate IncrementalRuns(typeOf: int -> int, runs: seq<(Source, Config)>) {
    forall r :: r in runs ==>
      ValidRun(r.0, r.1) && r.1.kind == Incremental && Typed(typeOf, r.0, map[])
  }

  lemma {:induction false} HistoryAdvances(typeOf: int -> int, runs: seq<(Source, Config)>, db: Database, id: int)
    requires IncrementalRuns(typeOf, runs) && Typed(typeOf, Source(map[], map[], id => Details(map[], [], None)), db)
    ensures
      var after := ExecAll(runs, db);
      && (id in db ==> id in after && Advances(db[id], after[id]))
      && (id in after ==> after[id].contentType == typeOf(id))
  {
    if runs != [] {
      var last := |runs| - 1;
      var before := ExecAll(runs[..last], db);
      forall other
        ensures other in before ==> before[other].contentType == typeOf(other)
      {
        HistoryAdvances(typeOf, runs[..last], db, other);
      }
      HistoryAdvances(typeOf, runs[..last], db, id);
      assert runs[last] in runs;
      RunAdvances(typeOf, runs[last].0, runs[last].1, before, id);
      if id in db {
        AdvancesTransitive(db[id], before[id], ExecAll(runs, db)[id]);
      }
    }
  }

  // ----- the second run is quiet

  // Nothing on the list would be stored.
  predicate SettledItem(item: Item, known: map<int, Option<string>>) {
    item.hidden || item.firstImage.None? || (item.id in known && !Newer(item.modifiedAt, known[item.id]))
  }

  ghost predicate Settled(source: Source, db: Database) {
    forall item :: Has(source, Incremental, item) ==> SettledItem(item, Snapshot(db, item.contentType))
  }

  // The same rows, up to `active`.
  ghost predicate SameButActive(a: Database, b: Database) {
    a.Keys == b.Keys && forall id :: id in a ==> b[id] == a[id].(active := b[id].active)
  }

  lemma ItemQuiet(source: Source, c: Config, pass: int, known: map<int, Option<string>>, item: Item, st: State)
    requires c.kind == Incremental && SettledItem(item, known)
    ensures
      var after := HandleItem(source, c, pass, known, item, st);
      && after.sub.created == st.sub.created && after.sub.updated == st.sub.updated
      && after.total == st.total && SameButActive(st.db, after.db)
  {
  }

  lemma {:induction false} ItemsQuiet(source: Source, c: Config, pass: int, known: map<int, Option<string>>,
                                      items: seq<Item>, st: State)
    requires c.kind == Incremental && forall i :: 0 <= i < |items| ==> SettledItem(items[i], known)
    ensures
      var after := HandleItems(source, c, pass, known, items, st);
      && after.sub.created == st.sub.created && after.sub.updated == st.sub.updated
      && after.total == st.total && SameButActive(st.db, after.db)
  {
    if items != [] && !st.aborted {
      ItemQuiet(source, c, pass, known, items[0], st);
      ItemsQuiet(source, c, pass, known, items[1..], HandleItem(source, c, pass, known, items[0], st));
    }
  }

  lemma SnapshotKept(a: Database, b: Database, contentType: int)
    requires SameButActive(a, b)
    ensures Snapshot(a, contentType) == Snapshot(b, contentType)
  {
    var s, t := Snapshot(a, contentType), Snapshot(b, contentType);
    forall id
      ensures id in s <==> id in t
      ensures id in s ==> s[id] == t[id]
    {
      assert id in a.Keys <==> id in b.Keys;
      if id in a {
        assert b[id] == a[id].(active := b[id].active);
      }
    }
  }

  lemma {:induction false} PassesQuiet(source: Source, c: Config, pass: nat, st: State)
    requires ValidRun(source, c) && c.kind == Incremental && pass <= |c.types| && Settled(source, st.db)
    ensures
      var after := Passes(source, c, pass, st);
      after.total.created == st.total.created && after.total.updated == st.total.updated
    decreases |c.types| - pass
  {
    if pass < |c.types| && !st.aborted {
      var t := c.types[pass];
      var known, start := Snapshot(st.db, t), PassStart(st);
      var items := c.listing(t)[0..PagesEnd(source, c, pass, t, known, 1, 0, start)];
      PagesAreItems(source, c, pass, t, known, 1, 0, start);
      forall i | 0 <= i < |items|
        ensures SettledItem(items[i], known)
      {
        assert items[i] in c.listing(t);
      }
      ItemsQuiet(source, c, pass, known, items, start);
      var st1 := Pass(source, c, pass, st);
      forall item | Has(source, Incremental, item)
        ensures SettledItem(item, Snapshot(st1.db, item.contentType))
      {
        SnapshotKept(st.db, st1.db, item.contentType);
      }
      PassesQuiet(source, c, pass + 1, st1);
    }
  }

  lemma CleanRunSettles(source: Source, c: Config, db: Database)
    requires ValidRun(source, c) && c.kind == Incremental
    requires FailureFree(c) && Covers(source, c)
    ensures Settled(source, Run(source, c, db).db)
  {
    var after := Run(source, c, db).db;
    forall item | Has(source, Incremental, item)
      ensures SettledItem(item, Snapshot(after, item.contentType))
    {
      RunTouches(source, c, db, item);
      if item.modifiedAt.Some? {
        BeforeIrreflexive(item.modifiedAt.value);
      }
      assert Row(after, item.id) == Effect(source, Incremental, item, Row(db, item.id));
    }
  }

  // After a failure-free incremental run, a second one over the same source creates and updates nothing,
  // whatever happens in it.
  lemma SecondRunIsQuiet(source: Source, first: Config, second: Config, db: Database)
    requires ValidRun(source, first) && ValidRun(source, second)
    requires first.kind == Incremental && second.kind == Incremental
    requires FailureFree(first) && Covers(source, first)
    ensures
      var total := Run(source, second, Run(source, first, db).db).total;
      total.created == 0 && total.updated == 0
  {
    CleanRunSettles(source, first, db);
    PassesQuiet(source, second, 0, Start(Run(source, first, db).db));
  }
}
