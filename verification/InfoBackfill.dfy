/** The backfill that re-cleans stored PlaceInfo texts: changed rows are collected first and written in
batches afterwards.
 */
module InfoBackfill {
  import opened Common
  import opened Patterns
  import opened InfoText

  // The free-text fields of one row, in the order the backfill visits them.
  type Texts = seq<Option<string>>

  // The cleaner of one field; the backfill runs `Clean`.
  type Cleaner = Option<string> -> Option<string>

  function CleanTexts(f: Cleaner, texts: Texts): (r: Texts) {
    seq(|texts|, i requires 0 <= i < |texts| => f(texts[i]))
  }

  // Fields that cleaning changes.
  function DirtyFields(f: Cleaner, texts: Texts): nat {
    if texts == [] then 0
    else
      var last := texts[|texts| - 1];
      DirtyFields(f, texts[..|texts| - 1]) + if f(last) != last then 1 else 0
  }

  function CleanRows(f: Cleaner, rows: seq<Texts>): seq<Texts> {
    seq(|rows|, r requires 0 <= r < |rows| => CleanTexts(f, rows[r]))
  }

  datatype Summary = Summary(scanned: nat, changedRows: nat, changedFields: nat) {
    function Add(dirty: nat): Summary {
      Summary(scanned + 1, changedRows + if dirty > 0 then 1 else 0, changedFields + dirty)
    }
  }

  function Summarise(f: Cleaner, rows: seq<Texts>): Summary {
    if rows == [] then Summary(0, 0, 0)
    else Summarise(f, rows[..|rows| - 1]).Add(DirtyFields(f, rows[|rows| - 1]))
  }

  // A changed row waiting to be written, with its primary key.
  datatype Update = Update(row: nat, texts: Texts)

  function Updates(f: Cleaner, rows: seq<Texts>): seq<Update> {
    if rows == [] then []
    else
      var last := |rows| - 1;
      Updates(f, rows[..last]) +
      if DirtyFields(f, rows[last]) > 0 then [Update(last, CleanTexts(f, rows[last]))] else []
  }

  // The updates are the cleaned forms of exactly the rows that need one.
  ghost predicate Collected(f: Cleaner, rows: seq<Texts>, updates: seq<Update>) {
    && (forall k :: 0 <= k < |updates| ==>
          updates[k].row < |rows| && updates[k].texts == CleanTexts(f, rows[updates[k].row]))
    && (forall r :: 0 <= r < |rows| && DirtyFields(f, rows[r]) > 0 ==> Pending(updates, r))
  }

  ghost predicate Pending(updates: seq<Update>, r: nat) {
    exists k :: 0 <= k < |updates| && updates[k].row == r
  }

  class PlaceInfoTable {
    var rows: seq<Texts>

    method CleanExistingPlaceInfo(dryRun: bool, batchSize: nat) returns (summary: Summary)
      requires batchSize > 0
      modifies this
      ensures summary == Summarise(Clean, old(rows))
      ensures rows == if dryRun then old(rows) else CleanRows(Clean, old(rows))
    {
      summary := CleanExisting(Clean, dryRun, batchSize);
    }

    // dry_run only counts.
    method CleanExisting(f: Cleaner, dryRun: bool, batchSize: nat) returns (summary: Summary)
      requires batchSize > 0
      modifies this
      ensures summary == Summarise(f, old(rows))
      ensures rows == if dryRun then old(rows) else CleanRows(f, old(rows))
    {
      ghost var before := rows;
      var updates;
      summary, updates := Collect(f);
      if !dryRun {
        WriteBatches(updates, batchSize);
        UpdatesCollected(f, before);
        forall r | 0 <= r < |before|
          ensures rows[r] == CleanTexts(f, before[r])
        {
          ApplyCleans(f, before, updates, r);
          CleanIsCleaned(f, before[r]);
        }
        assert rows == CleanRows(f, before);
      }
    }

    method Collect(f: Cleaner) returns (summary: Summary, updates: seq<Update>)
      ensures summary == Summarise(f, rows) && updates == Updates(f, rows)
    {
      summary, updates := Summary(0, 0, 0), [];
      for r := 0 to |rows|
        invariant summary == Summarise(f, rows[..r])
        invariant updates == Updates(f, rows[..r])
      {
        assert rows[..r + 1][..r] == rows[..r];
        var cleaned, dirty := CleanRow(f, rows[r]);
        summary := summary.Add(dirty);
        if dirty > 0 {
          updates := updates + [Update(r, cleaned)];
        }
      }
      assert rows[..|rows|] == rows;
    }

    method WriteBatches(updates: seq<Update>, batchSize: nat)
      requires batchSize > 0
      modifies this
      ensures rows == Apply(old(rows), updates)
    {
      var start := 0;
      while start < |updates|
        invariant 0 <= start <= |updates|
        invariant rows == Apply(old(rows), updates[..start])
      {
        var end := if start + batchSize < |updates| then start + batchSize else |updates|;
        for k := start to end
          invariant rows == Apply(old(rows), updates[..k])
        {
          assert updates[..k + 1][..k] == updates[..k];
          if updates[k].row < |rows| {
            rows := rows[updates[k].row := updates[k].texts];
          }
        }
        start := end;
      }
      assert updates[..|updates|] == updates;
    }
  }

  // UPDATE statements, one after the other; a row that is not there is not written.
  function Apply(rows: seq<Texts>, updates: seq<Update>): (r: seq<Texts>)
    ensures |r| == |rows|
  {
    if updates == [] then rows
    else
      var before, u := Apply(rows, updates[..|updates| - 1]), updates[|updates| - 1];
      if u.row < |rows| then before[u.row := u.texts] else before
  }

  method CleanRow(f: Cleaner, texts: Texts) returns (cleaned: Texts, dirty: nat)
    ensures cleaned == CleanTexts(f, texts) && dirty == DirtyFields(f, texts)
  {
    cleaned, dirty := texts, 0;
    for field := 0 to |texts|
      invariant |cleaned| == |texts|
      invariant forall i :: 0 <= i < field ==> cleaned[i] == f(texts[i])
      invariant forall i :: field <= i < |texts| ==> cleaned[i] == texts[i]
      invariant dirty == DirtyFields(f, texts[..field])
    {
      assert texts[..field + 1][..field] == texts[..field];
      var value := f(cleaned[field]);
      if value != cleaned[field] {
        cleaned := cleaned[field := value];
        dirty := dirty + 1;
      }
    }
    assert texts[..|texts|] == texts;
    assert cleaned == CleanTexts(f, texts);
  }

  // Writing updates that hold the cleaned rows cleans the rows named, and no other.
  lemma {:induction false} ApplyCleans(f: Cleaner, rows: seq<Texts>, updates: seq<Update>, r: nat)
    requires r < |rows|
    requires forall k :: 0 <= k < |updates| && updates[k].row == r ==> updates[k].texts == CleanTexts(f, rows[r])
    ensures Apply(rows, updates)[r] == if Pending(updates, r) then CleanTexts(f, rows[r]) else rows[r]
  {
    if updates != [] {
      var init, u := updates[..|updates| - 1], updates[|updates| - 1];
      ApplyCleans(f, rows, init, r);
      assert updates == init + [u];
      PendingAppend(init, u, r);
    }
  }

  lemma PendingAppend(updates: seq<Update>, u: Update, r: nat)
    ensures Pending(updates + [u], r) <==> Pending(updates, r) || r == u.row
  {
    if j :| 0 <= j < |updates| && updates[j].row == r {
      assert (updates + [u])[j].row == r;
    }
    assert (updates + [u])[|updates|] == u;
  }

  lemma {:induction false} UpdatesCollected(f: Cleaner, rows: seq<Texts>)
    ensures Collected(f, rows, Updates(f, rows))
  {
    hide DirtyFields, CleanTexts, Pending, Collected;
    if rows == [] {
      NothingCollected(f);
    } else {
      var init := rows[..|rows| - 1];
      UpdatesCollected(f, init);
      CollectedStep(f, init, rows[|rows| - 1], Updates(f, init));
      assert rows == init + [rows[|rows| - 1]];
    }
  }

  lemma NothingCollected(f: Cleaner)
    ensures Collected(f, [], [])
  {
  }

  lemma CollectedStep(f: Cleaner, rows: seq<Texts>, last: Texts, updates: seq<Update>)
    requires Collected(f, rows, updates)
    ensures
      var more := if DirtyFields(f, last) > 0 then [Update(|rows|, CleanTexts(f, last))] else [];
      Collected(f, rows + [last], updates + more)
  {
    hide DirtyFields, CleanTexts, Pending;
    if DirtyFields(f, last) > 0 {
      var u := Update(|rows|, CleanTexts(f, last));
      forall r | 0 <= r <= |rows| && DirtyFields(f, (rows + [last])[r]) > 0
        ensures Pending(updates + [u], r)
      {
        PendingAppend(updates, u, r);
      }
    } else {
      assert updates + [] == updates;
    }
  }

  lemma {:induction false} CleanIsCleaned(f: Cleaner, texts: Texts)
    ensures DirtyFields(f, texts) == 0 <==> CleanTexts(f, texts) == texts
  {
    if texts != [] {
      var init, last := texts[..|texts| - 1], texts[|texts| - 1];
      CleanIsCleaned(f, init);
      assert texts == init + [last];
      assert CleanTexts(f, texts) == CleanTexts(f, init) + [f(last)];
    }
  }

  // ----- what the summary says

  // All fields of all rows.
  function Fields(rows: seq<Texts>): Texts {
    if rows == [] then [] else Fields(rows[..|rows| - 1]) + rows[|rows| - 1]
  }

  ghost function Changes(f: Cleaner): Option<string> -> bool {
    text => f(text) != text
  }

  ghost function ChangesRow(f: Cleaner): Texts -> bool {
    texts => CleanTexts(f, texts) != texts
  }

  lemma {:induction false} DirtyFieldsCounted(f: Cleaner, texts: Texts)
    ensures DirtyFields(f, texts) == CountBefore(texts, Changes(f), |texts|)
  {
    hide CountBefore;
    if texts == [] {
      CountBeforeNone(texts, Changes(f));
    } else {
      var init, last := texts[..|texts| - 1], texts[|texts| - 1];
      assert texts == init + [last];
      DirtyFieldsCounted(f, init);
      CountBeforeAppend(init, last, Changes(f));
    }
  }

  // Rows scanned, rows that cleaning changes, and fields that it changes.
  lemma {:induction false} SummaryIsExact(f: Cleaner, rows: seq<Texts>)
    ensures
      var summary := Summarise(f, rows);
      && summary.scanned == |rows|
      && summary.changedRows == CountBefore(rows, ChangesRow(f), |rows|)
      && summary.changedFields == CountBefore(Fields(rows), Changes(f), |Fields(rows)|)
  {
    hide CountBefore, CleanTexts;
    if rows == [] {
      CountBeforeNone(rows, ChangesRow(f));
      CountBeforeNone(Fields(rows), Changes(f));
    } else {
      var init, last := rows[..|rows| - 1], rows[|rows| - 1];
      assert rows == init + [last];
      SummaryIsExact(f, init);
      CountBeforeAppend(init, last, ChangesRow(f));
      CountBeforeConcat(Fields(init), last, Changes(f));
      DirtyFieldsCounted(f, last);
      CleanIsCleaned(f, last);
    }
  }

  // ----- idempotence of the backfill

  // A stored text that holds a line-break tag.
  ghost predicate HasBreak(text: Option<string>) {
    text.Some? && Found(text.value, BreakLength)
  }

  lemma {:induction false} DirtyIfSome(f: Cleaner, texts: Texts)
    ensures DirtyFields(f, texts) > 0 <==> exists i :: 0 <= i < |texts| && f(texts[i]) != texts[i]
  {
    if texts != [] {
      var init := texts[..|texts| - 1];
      DirtyIfSome(f, init);
      if i :| 0 <= i < |texts| && f(texts[i]) != texts[i] {
        assert i < |init| ==> init[i] == texts[i];
      }
    }
  }

  lemma CleanFieldAgain(value: Option<string>)
    ensures Clean(Clean(value)) != Clean(value) <==> HasBreak(Clean(value))
  {
    if Clean(value).Some? {
      CleanAgain(value);
    }
  }

  lemma {:induction false} ChangedRowsIfSome(f: Cleaner, rows: seq<Texts>)
    ensures Summarise(f, rows).changedRows > 0 <==> exists r :: 0 <= r < |rows| && DirtyFields(f, rows[r]) > 0
    ensures Summarise(f, rows).changedFields > 0 <==> Summarise(f, rows).changedRows > 0
  {
    if rows != [] {
      var init := rows[..|rows| - 1];
      ChangedRowsIfSome(f, init);
      if r :| 0 <= r < |rows| && DirtyFields(f, rows[r]) > 0 {
        assert r < |init| ==> init[r] == rows[r];
      }
    }
  }

  // A second run over the rows a first run left changes nothing exactly when no text still holds a
  // line-break tag.
  lemma SecondRunChangesNothing(rows: seq<Texts>)
    ensures
      var cleaned := CleanRows(Clean, rows);
      Summarise(Clean, cleaned).changedRows == 0 && Summarise(Clean, cleaned).changedFields == 0 <==>
      forall r, i :: 0 <= r < |cleaned| && 0 <= i < |cleaned[r]| ==> !HasBreak(cleaned[r][i])
  {
    var cleaned := CleanRows(Clean, rows);
    ChangedRowsIfSome(Clean, cleaned);
    forall r | 0 <= r < |cleaned|
      ensures DirtyFields(Clean, cleaned[r]) > 0 <==> exists i :: 0 <= i < |cleaned[r]| && HasBreak(cleaned[r][i])
    {
      DirtyIfSome(Clean, cleaned[r]);
      forall i | 0 <= i < |cleaned[r]|
        ensures Clean(cleaned[r][i]) != cleaned[r][i] <==> HasBreak(cleaned[r][i])
      {
        CleanFieldAgain(rows[r][i]);
      }
    }
  }
}
