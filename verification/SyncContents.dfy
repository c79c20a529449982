/** What a clean run leaves in the row of every item, said column by column.

The convergence results compare runs with runs; these say what the rows hold afterwards.
 */
module SyncContents {
  import opened Common
  import opened PlaceSync
  import opened SyncConvergence

  // `a` comes before `b` in a dictionary of code points.
  ghost predicate Lexicographic(a: string, b: string) {
    a < b || exists k: nat :: k < |a| && k < |b| && a[..k] == b[..k] && a[k] < b[k]
  }

  lemma {:induction false} BeforeIsLexicographic(a: string, b: string)
    ensures Before(a, b) <==> Lexicographic(a, b)
  {
    hide Lexicographic;
    if a == "" || b == "" {
      EmptyOrder(a, b);
    } else if a[0] == b[0] {
      BeforeIsLexicographic(a[1..], b[1..]);
      if Lexicographic(a, b) {
        SameHeadDown(a, b);
      }
      SameHeadUp(a, b);
    } else {
      HeadDecides(a, b);
    }
  }

  lemma EmptyOrder(a: string, b: string)
    requires a == "" || b == ""
    ensures Lexicographic(a, b) <==> a == "" && b != ""
  {
  }

  lemma HeadDecides(a: string, b: string)
    requires a != "" && b != "" && a[0] != b[0]
    ensures Lexicographic(a, b) <==> a[0] < b[0]
  {
    assert a[..0] == b[..0];
    if k: nat :| k < |a| && k < |b| && a[..k] == b[..k] && a[k] < b[k] {
      SamePrefixSameHead(a, b, k);
    }
  }

  lemma SamePrefixSameHead(a: string, b: string, k: nat)
    requires k < |a| && k < |b| && a[..k] == b[..k]
    ensures k > 0 ==> a[0] == b[0]
  {
    if k > 0 {
      assert a[..k][0] == b[..k][0];
    }
  }

  lemma SameHeadDown(a: string, b: string)
    requires a != "" && b != "" && a[0] == b[0] && Lexicographic(a, b)
    ensures Lexicographic(a[1..], b[1..])
  {
    var s, t := a[1..], b[1..];
    if a < b {
      assert forall i :: 0 <= i < |s| ==> s[i] == a[i + 1] && t[i] == b[i + 1];
      assert s < t;
    } else {
      var k: nat :| k < |a| && k < |b| && a[..k] == b[..k] && a[k] < b[k];
      assert s[..k - 1] == a[..k][1..] && t[..k - 1] == b[..k][1..];
    }
  }

  lemma SameHeadUp(a: string, b: string)
    requires a != "" && b != "" && a[0] == b[0]
    ensures Lexicographic(a[1..], b[1..]) ==> Lexicographic(a, b)
  {
    var s, t := a[1..], b[1..];
    if s < t {
      assert a == [a[0]] + s && b == [a[0]] + t;
      assert a < b;
    } else if k: nat :| k < |s| && k < |t| && s[..k] == t[..k] && s[k] < t[k] {
      assert a[..k + 1] == [a[0]] + s[..k] && b[..k + 1] == [a[0]] + t[..k];
    }
  }

  // The item's time is there and later, as text, than the stored one, if that is there.
  ghost predicate Later(time: Option<string>, stored: Option<string>) {
    time.Some? && (stored.None? || Lexicographic(stored.value, time.value))
  }

  // A run of the kind has to save the item: it has an image and is not hidden from the run, and there is no row of
  // its type, or the run refreshes every row, or it goes by changes and the item is later.
  ghost predicate Due(kind: Kind, item: Item, row: Option<Place>) {
    && item.firstImage.Some?
    && !(kind.Incremental? && item.hidden)
    && (row.Some? && row.value.contentType == item.contentType ==>
          kind == All(false) || (kind.Incremental? && Later(item.modifiedAt, row.value.modifiedAt)))
  }

  ghost predicate Leaves(source: Source, kind: Kind, item: Item, row: Option<Place>, after: Option<Place>) {
    if Due(kind, item, row) then after.Some? && Holds(source, item, row, after.value)
    else if kind.Incremental? && item.hidden && row.Some? && row.value.contentType == item.contentType then
      after == Some(row.value.(active := false))
    else after == row
  }

  lemma EffectLeaves(source: Source, kind: Kind, item: Item, row: Option<Place>)
    ensures Leaves(source, kind, item, row, Effect(source, kind, item, row))
  {
    hide Save, Holds, Before, Lexicographic;
    SaveHolds(source, item, row);
    if item.modifiedAt.Some? && row.Some? && row.value.modifiedAt.Some? {
      BeforeIsLexicographic(row.value.modifiedAt.value, item.modifiedAt.value);
    }
  }

  /** A clean run saves exactly the items that are due, whole; it deactivates what the list of changes hides and
  leaves every other row alone. */
  lemma CleanRunLeaves(source: Source, c: Config, db: Database, item: Item)
    requires ValidRun(source, c) && FailureFree(c) && Covers(source, c) && Has(source, c.kind, item)
    ensures Leaves(source, c.kind, item, Row(db, item.id), Row(Run(source, c, db).db, item.id))
  {
    hide Effect, Leaves;
    RunTouches(source, c, db, item);
    EffectLeaves(source, c.kind, item, Row(db, item.id));
  }

  lemma UnlistedStays(source: Source, c: Config, db: Database, id: int)
    requires ValidRun(source, c) && !HasId(source, c.kind, id)
    ensures Row(Run(source, c, db).db, id) == Row(db, id)
  {
    PassesFrame(source, c, 0, Start(db), id);
  }

  /** So it is at the end of any history closed by a clean run, measured by the row that run finds; when all runs are
  of one kind, also by the row before the history. */
  lemma HistoryLeaves(source: Source, history: seq<Config>, final: Config, db: Database, item: Item)
    requires ValidHistory(source, history)
    requires ValidRun(source, final) && FailureFree(final) && Covers(source, final) && Has(source, final.kind, item)
    ensures
      var found, after := Exec(source, history, db), Run(source, final, Exec(source, history, db)).db;
      && Leaves(source, final.kind, item, Row(found, item.id), Row(after, item.id))
      && ((forall c :: c in history ==> c.kind == final.kind) ==>
            Leaves(source, final.kind, item, Row(db, item.id), Row(after, item.id)))
  {
    hide Leaves;
    CleanRunLeaves(source, final, Exec(source, history, db), item);
    if forall c :: c in history ==> c.kind == final.kind {
      OneKindConverges(source, history, final, db);
      CleanRunLeaves(source, final, db, item);
    }
  }

  // ----- dry runs

  lemma {:induction false} DryItems(source: Source, c: Config, pass: int, known: map<int, Option<string>>,
                                    items: seq<Item>, st: State)
    requires c.dryRun
    ensures HandleItems(source, c, pass, known, items, st).db == st.db
  {
    if items != [] && !st.aborted {
      DryItems(source, c, pass, known, items[1..], HandleItem(source, c, pass, known, items[0], st));
    }
  }

  lemma {:induction false} DryPasses(source: Source, c: Config, pass: nat, st: State)
    requires c.dryRun && c.pageSize > 0 && pass <= |c.types|
    ensures Passes(source, c, pass, st).db == st.db
    decreases |c.types| - pass
  {
    if pass < |c.types| && !st.aborted {
      var t := c.types[pass];
      var known, start := Snapshot(st.db, t), PassStart(st);
      PagesAreItems(source, c, pass, t, known, 1, 0, start);
      DryItems(source, c, pass, known, c.listing(t)[0..PagesEnd(source, c, pass, t, known, 1, 0, start)], start);
      DryPasses(source, c, pass + 1, Pass(source, c, pass, st));
    }
  }

  // A dry run writes nothing, whatever its kind and its failures.
  lemma DryRunWritesNothing(source: Source, c: Config, db: Database)
    requires c.dryRun && c.pageSize > 0
    ensures Run(source, c, db).db == db
  {
    DryPasses(source, c, 0, Start(db));
  }
}
