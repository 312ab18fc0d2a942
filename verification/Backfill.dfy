// The paged schema_valid backfill of database/database.py. Pages of bounded
// size are read by keyset and corrected by two UPDATE statements each; the
// result is proved to be the one-shot correction of the whole table.
module Backfill {
  import opened Common

  /** The columns of ai_decisions that the backfill reads. The other columns are carried along in `rest`. */
  datatype Row = Row(
    id: int, providerInvoked: int, stage: Option<string>, legacy: Option<string>, schemaValid: int, rest: string)

  datatype Report = Report(applied: bool, batches: nat, scanned: nat, updated: nat)

  const INVALID_STAGES: set<string> := {
    "PROVIDER_TRANSPORT", "STRUCTURED_EXTRACTION", "JSON_PARSING",
    "JSON_SCHEMA_VALIDATION", "HTTP_RESPONSE_SHAPE", "PROVIDER_COMPLETION"}

  // ---- what the backfill is for ----------------------------------------

  /** None leaves the row alone. */
  function Desired(row: Row): Option<int> {
    if row.stage.None? || row.legacy != Some("CURRENT_IDENTITY") then None
    else Some(if row.providerInvoked != 0 && row.stage.value !in INVALID_STAGES then 1 else 0)
  }

  /** The keyset starts at 0, so rows with a smaller id are never seen. */
  function Corrected(row: Row): Row {
    if row.id > 0 && Desired(row).Some? then row.(schemaValid := Desired(row).value) else row
  }

  function Corrections(rows: seq<Row>): seq<Row> {
    seq(|rows|, k requires 0 <= k < |rows| => Corrected(rows[k]))
  }

  function PositiveIds(rows: seq<Row>): nat {
    if rows == [] then 0 else PositiveIds(rows[..|rows| - 1]) + (if rows[|rows| - 1].id > 0 then 1 else 0)
  }

  /** The number of rows that differ. */
  function Changed(before: seq<Row>, after: seq<Row>): nat
    requires |before| == |after|
  {
    if before == [] then 0
    else
      var n := |before| - 1;
      Changed(before[..n], after[..n]) + (if before[n] != after[n] then 1 else 0)
  }

  /** The stages at which a decision has not passed its schema. */
  predicate FailedSchema(stage: string) {
    || stage == "PROVIDER_TRANSPORT" || stage == "PROVIDER_COMPLETION" || stage == "HTTP_RESPONSE_SHAPE"
    || stage == "STRUCTURED_EXTRACTION" || stage == "JSON_PARSING" || stage == "JSON_SCHEMA_VALIDATION"
  }

  /** Only schema_valid changes, only where a correction is due, and correcting twice corrects nothing more. */
  lemma CorrectionsMean(rows: seq<Row>, k: nat)
    requires k < |rows|
    ensures var before, after := rows[k], Corrections(rows)[k];
      && after == before.(schemaValid := after.schemaValid)
      && (if before.id > 0 && before.stage.Some? && before.legacy == Some("CURRENT_IDENTITY") then
            after.schemaValid == (if before.providerInvoked == 0 || FailedSchema(before.stage.value) then 0 else 1)
          else after == before)
    ensures Corrections(Corrections(rows)) == Corrections(rows)
  {
    forall j | 0 <= j < |rows| ensures Corrected(Corrected(rows[j])) == Corrected(rows[j]) {
    }
  }

  // ---- the statements --------------------------------------------------

  ghost predicate Ascending(rows: seq<Row>) {
    forall j, k | 0 <= j < k < |rows| :: rows[j].id < rows[k].id
  }

  function After(rows: seq<Row>, last: int): seq<Row> {
    if rows == [] then []
    else if rows[0].id > last then [rows[0]] + After(rows[1..], last)
    else After(rows[1..], last)
  }

  /** SELECT ... WHERE id>? ORDER BY id LIMIT ?, on a table kept in the order of its primary key. */
  function Page(rows: seq<Row>, last: int, limit: nat): seq<Row> {
    After(rows, last)[..Min(limit, |After(rows, last)|)]
  }

  function UpdatedRow(row: Row, desired: int, ids: seq<int>): Row {
    if row.id in ids && row.schemaValid != desired then row.(schemaValid := desired) else row
  }

  /** UPDATE ... SET schema_valid=? WHERE id IN (...) AND schema_valid<>?. */
  function Updated(rows: seq<Row>, desired: int, ids: seq<int>): seq<Row> {
    seq(|rows|, k requires 0 <= k < |rows| => UpdatedRow(rows[k], desired, ids))
  }

  predicate Listable(row: Row, desired: int) { Desired(row) == Some(desired) && row.schemaValid != desired }

  /** The rows of a page that are put on the list for `desired`. */
  function Listed(page: seq<Row>, desired: int): seq<int> {
    if page == [] then []
    else
      var row := page[|page| - 1];
      Listed(page[..|page| - 1], desired)
      + (if Listable(row, desired) then [row.id] else [])
  }

  function BothUpdates(rows: seq<Row>, zeros: seq<int>, ones: seq<int>): seq<Row> {
    Updated(Updated(rows, 0, zeros), 1, ones)
  }

  // ---- where the keyset stands -----------------------------------------

  /** The first `done` rows are at or before the keyset position `last`, the others after it. */
  ghost predicate SplitAt(rows: seq<Row>, done: nat, last: int) {
    && done <= |rows|
    && (forall j | 0 <= j < done :: rows[j].id <= last)
    && (forall j | done <= j < |rows| :: rows[j].id > last)
  }

  /** The table once the first `done` of its original rows have been corrected. */
  function Progress(before: seq<Row>, done: nat): (rows: seq<Row>)
    requires done <= |before|
    ensures |rows| == |before|
  { Corrections(before[..done]) + before[done..] }

  lemma {:induction false} AfterIsSuffix(rows: seq<Row>, done: nat, last: int)
    requires SplitAt(rows, done, last)
    ensures After(rows, last) == rows[done..]
  {
    if rows != [] {
      if done > 0 {
        AfterIsSuffix(rows[1..], done - 1, last);
      } else {
        AfterIsSuffix(rows[1..], 0, last);
      }
    }
  }

  lemma PageIsNext(before: seq<Row>, done: nat, last: int, limit: nat)
    requires SplitAt(before, done, last)
    ensures Page(Progress(before, done), last, limit) == before[done..Min(done + limit, |before|)]
  {
    var rows := Progress(before, done);
    assert rows[done..] == before[done..];
    assert SplitAt(rows, done, last);
    AfterIsSuffix(rows, done, last);
  }

  lemma {:induction false} PositiveIdsComeLast(rows: seq<Row>)
    requires Ascending(rows)
    ensures PositiveIds(rows) <= |rows| && SplitAt(rows, |rows| - PositiveIds(rows), 0)
  {
    if rows != [] {
      PositiveIdsComeLast(rows[..|rows| - 1]);
      if rows[|rows| - 1].id <= 0 {
        assert forall j | 0 <= j < |rows| - 1 :: rows[j].id < rows[|rows| - 1].id;
      }
    }
  }

  /** Where all ids are positive, the scan counts the whole table. */
  lemma {:induction false} AllPositive(rows: seq<Row>)
    requires forall k | 0 <= k < |rows| :: rows[k].id > 0
    ensures PositiveIds(rows) == |rows|
  {
    if rows != [] {
      AllPositive(rows[..|rows| - 1]);
    }
  }

  lemma StartsUncorrected(before: seq<Row>, done: nat)
    requires SplitAt(before, done, 0)
    ensures Progress(before, done) == before
  {
  }

  // ---- one page --------------------------------------------------------

  lemma {:induction false} ListedMeans(page: seq<Row>, desired: int, id: int)
    ensures id in Listed(page, desired)
            <==> exists j | 0 <= j < |page| :: page[j].id == id && Listable(page[j], desired)
  {
    hide Listable;
    if page != [] {
      var n := |page| - 1;
      ListedMeans(page[..n], desired, id);
      assert page == page[..n] + [page[n]];
      if j :| 0 <= j < n && page[..n][j].id == id && Listable(page[..n][j], desired) {
        assert page[j].id == id && Listable(page[j], desired);
      }
    }
  }

  /** Ids are unique, so a row of the table is listed exactly when it is on the page and due for the value. */
  lemma ListedOnPage(before: seq<Row>, done: nat, next: nat, desired: int, k: nat)
    requires Ascending(before) && done <= next <= |before| && k < |before|
    ensures before[k].id in Listed(before[done..next], desired)
            <==> done <= k < next && Listable(before[k], desired)
  {
    hide Listable, Listed;
    var page := before[done..next];
    ListedMeans(page, desired, before[k].id);
    if done <= k < next {
      assert page[k - done] == before[k];
    }
    forall j | 0 <= j < |page| && page[j].id == before[k].id ensures done + j == k {
      assert page[j] == before[done + j];
    }
  }

  /** What the two updates do to one row: it is corrected if it is on the page, and changed by one of them at most. */
  lemma RowCorrected(before: seq<Row>, done: nat, next: nat, last: int, k: nat)
    requires Ascending(before) && SplitAt(before, done, last) && last >= 0 && done <= next <= |before| && k < |before|
    ensures var page, row := before[done..next], Progress(before, done)[k];
      var first := UpdatedRow(row, 0, Listed(page, 0));
      var second := UpdatedRow(first, 1, Listed(page, 1));
      && second == Progress(before, next)[k]
      && (first == row || second == first)
      && (row == before[k] || second == row)
  {
    assert Progress(before, done)[k].id == before[k].id;
    ListedOnPage(before, done, next, 0, k);
    ListedOnPage(before, done, next, 1, k);
    hide Listed;
  }

  lemma PageCorrected(before: seq<Row>, done: nat, next: nat, last: int)
    requires Ascending(before) && SplitAt(before, done, last) && last >= 0 && done <= next <= |before|
    ensures var page := before[done..next];
      BothUpdates(Progress(before, done), Listed(page, 0), Listed(page, 1)) == Progress(before, next)
  {
    hide Listed, UpdatedRow, Ascending, SplitAt;
    forall k | 0 <= k < |before|
      ensures UpdatedRow(UpdatedRow(Progress(before, done)[k], 0, Listed(before[done..next], 0)), 1,
                         Listed(before[done..next], 1)) == Progress(before, next)[k]
    {
      RowCorrected(before, done, next, last, k);
    }
  }

  lemma {:induction false} ChangesAddUp(a: seq<Row>, b: seq<Row>, c: seq<Row>)
    requires |a| == |b| == |c| && forall k | 0 <= k < |a| :: a[k] == b[k] || b[k] == c[k]
    ensures Changed(a, c) == Changed(a, b) + Changed(b, c)
  {
    if a != [] {
      var n := |a| - 1;
      ChangesAddUp(a[..n], b[..n], c[..n]);
    }
  }

  lemma EachRowOnce(before: seq<Row>, done: nat, next: nat, last: int)
    requires Ascending(before) && SplitAt(before, done, last) && last >= 0 && done <= next <= |before|
    ensures var page, rows := before[done..next], Progress(before, done);
      var zeros, ones := Listed(page, 0), Listed(page, 1);
      Changed(before, BothUpdates(rows, zeros, ones))
      == Changed(before, rows) + Changed(rows, Updated(rows, 0, zeros))
         + Changed(Updated(rows, 0, zeros), BothUpdates(rows, zeros, ones))
  {
    hide Listed, UpdatedRow, Ascending, SplitAt, Changed;
    var page, rows := before[done..next], Progress(before, done);
    var zeros, ones := Listed(page, 0), Listed(page, 1);
    var first, second := Updated(rows, 0, zeros), BothUpdates(rows, zeros, ones);
    forall k | 0 <= k < |before|
      ensures first[k] == rows[k] || second[k] == first[k]
      ensures rows[k] == before[k] || second[k] == rows[k]
    {
      RowCorrected(before, done, next, last, k);
    }
    hide Updated, BothUpdates, Progress;
    ChangesAddUp(rows, first, second);
    ChangesAddUp(before, rows, second);
  }

  lemma ChangedAppend(before: seq<Row>, after: seq<Row>, b: Row, a: Row)
    requires |before| == |after|
    ensures Changed(before + [b], after + [a]) == Changed(before, after) + (if b != a then 1 else 0)
  {
    assert (before + [b])[..|before|] == before && (after + [a])[..|after|] == after;
  }

  lemma {:induction false} NoChange(rows: seq<Row>)
    ensures Changed(rows, rows) == 0
  {
    if rows != [] {
      NoChange(rows[..|rows| - 1]);
    }
  }

  lemma NothingListed(rows: seq<Row>, desired: int)
    ensures Updated(rows, desired, []) == rows && Changed(rows, rows) == 0
  {
    NoChange(rows);
  }

  // ---- counting pages --------------------------------------------------

  predicate AllFull(scanned: nat, limit: nat, batches: nat) { scanned == batches * limit }

  /** Every page is full except possibly the last one. */
  predicate FullPages(scanned: nat, limit: nat, batches: nat) {
    if scanned == 0 then batches == 0 else batches > 0 && (batches - 1) * limit < scanned <= batches * limit
  }

  lemma OneMorePage(scanned: nat, count: nat, limit: nat, batches: nat)
    requires AllFull(scanned, limit, batches) && 0 < count <= limit
    ensures FullPages(scanned + count, limit, batches + 1)
    ensures count == limit ==> AllFull(scanned + count, limit, batches + 1)
  {
    assert (batches + 1) * limit == batches * limit + limit;
  }

  // ---- the backfill ----------------------------------------------------

  ghost predicate LargestId(page: seq<Row>, start: int, last: int) {
    && last >= start && (forall j | 0 <= j < |page| :: page[j].id <= last)
    && (last == start || exists j | 0 <= j < |page| :: page[j].id == last)
  }

  lemma LargestAppend(page: seq<Row>, start: int, last: int, row: Row)
    requires LargestId(page, start, last)
    ensures LargestId(page + [row], start, Max(last, row.id))
  {
    var longer := page + [row];
    assert longer[|page|] == row;
    if last != start && last >= row.id {
      var j :| 0 <= j < |page| && page[j].id == last;
      assert longer[j].id == last;
    }
  }

  lemma NothingReadYet(start: int)
    ensures LargestId([], start, start)
  {
  }

  lemma NoPagesYet(limit: nat)
    ensures AllFull(0, limit, 0)
  {
  }

  /** The split of a page into the two update lists; `last` becomes the largest id of the page. */
  method ReadPage(page: seq<Row>, start: int) returns (last: int, zeros: seq<int>, ones: seq<int>)
    requires Ascending(page)
    ensures zeros == Listed(page, 0) && ones == Listed(page, 1)
    ensures LargestId(page, start, last)
  {
    hide LargestId;
    last, zeros, ones := start, [], [];
    NothingReadYet(start);
    for k := 0 to |page|
      invariant zeros == Listed(page[..k], 0) && ones == Listed(page[..k], 1)
      invariant LargestId(page[..k], start, last)
    {
      var row := page[k];
      assert page[..k + 1] == page[..k] + [row];
      LargestAppend(page[..k], start, last, row);
      last := Max(last, row.id);
      if row.stage.Some? && row.legacy == Some("CURRENT_IDENTITY") {
        var desired := if row.providerInvoked != 0 && row.stage.value !in INVALID_STAGES then 1 else 0;
        if row.schemaValid != desired {
          if desired == 0 {
            zeros := zeros + [row.id];
          } else {
            ones := ones + [row.id];
          }
        }
      }
    }
    assert page[..|page|] == page;
  }

  lemma PageAdvances(before: seq<Row>, done: nat, next: nat, start: int, last: int)
    requires Ascending(before) && SplitAt(before, done, start) && done < next <= |before|
    requires LargestId(before[done..next], start, last)
    ensures SplitAt(before, next, last) && last >= start
  {
    var page := before[done..next];
    assert page[next - 1 - done] == before[next - 1];
    if j :| 0 <= j < |page| && page[j].id == last {
      assert page[j] == before[done + j];
    }
    assert before[next - 1].id == last;
  }

  lemma PageAscends(before: seq<Row>, done: nat, next: nat)
    requires Ascending(before) && done <= next <= |before|
    ensures Ascending(before[done..next])
  {
  }

  lemma AllCorrected(before: seq<Row>)
    ensures Progress(before, |before|) == Corrections(before)
  {
    assert before[..|before|] == before;
  }

  lemma FullIsFullPages(scanned: nat, limit: nat, batches: nat)
    requires limit > 0
    ensures AllFull(scanned, limit, batches) ==> FullPages(scanned, limit, batches)
  {
    assert (batches - 1) * limit == batches * limit - limit;
  }

  /** The tables ai_decisions, in primary key order, and product_data_migrations, of which one marker matters. */
  class Decisions {
    var rows: seq<Row>
    var marked: bool

    constructor (rows: seq<Row>)
      ensures this.rows == rows && !marked
    {
      this.rows := rows;
      marked := false;
    }

    method Update(desired: int, ids: seq<int>) returns (rowcount: nat)
      modifies this`rows
      ensures rows == Updated(old(rows), desired, ids)
      ensures rowcount == Changed(old(rows), rows)
    {
      var before, after := rows, [];
      rowcount := 0;
      for k := 0 to |before|
        invariant rows == before
        invariant after == Updated(before, desired, ids)[..k]
        invariant rowcount == Changed(before[..k], after)
      {
        var row := before[k];
        if row.id in ids && row.schemaValid != desired {
          row := row.(schemaValid := desired);
          rowcount := rowcount + 1;
        }
        ChangedAppend(before[..k], after, before[k], row);
        assert before[..k + 1] == before[..k] + [before[k]];
        after := after + [row];
      }
      assert before[..|before|] == before;
      rows := after;
    }

    /** The two statements of one page; an empty list issues none. */
    method CorrectPage(zeros: seq<int>, ones: seq<int>) returns (updated: nat)
      modifies this`rows
      ensures rows == BothUpdates(old(rows), zeros, ones)
      ensures updated == Changed(old(rows), Updated(old(rows), 0, zeros)) + Changed(Updated(old(rows), 0, zeros), rows)
    {
      updated := 0;
      if zeros == [] {
        NothingListed(rows, 0);
      } else {
        updated := Update(0, zeros);
      }
      if ones == [] {
        NothingListed(rows, 1);
      } else {
        var rowcount := Update(1, ones);
        updated := updated + rowcount;
      }
    }

    /**
     * For every table and every batch size the paged loop ends and leaves the one-shot correction of the table; it
     * scans every row with a positive id once, counts the rows it changed, and never runs twice.
     */
    method Backfill(batchSize: int) returns (report: Report)
      requires Ascending(rows)
      modifies this
      ensures marked
      ensures old(marked) ==> rows == old(rows) && report == Report(false, 0, 0, 0)
      ensures !old(marked) ==>
                && rows == Corrections(old(rows))
                && report.applied
                && report.scanned == PositiveIds(old(rows))
                && report.updated == Changed(old(rows), rows)
                && FullPages(report.scanned, Max(1, batchSize), report.batches)
    {
      hide Corrections, Changed, Page, Progress, Listed, Updated, BothUpdates, Ascending, SplitAt, AllFull, FullPages,
        LargestId, PositiveIds;
      if marked {
        return Report(false, 0, 0, 0);
      }
      var limit: nat := Max(1, batchSize);
      var last, batches: nat, scanned: nat, updated: nat := 0, 0, 0, 0;
      ghost var before := rows;
      PositiveIdsComeLast(before);
      ghost var done: nat := |before| - PositiveIds(before);
      StartsUncorrected(before, done);
      NoChange(before);
      NoPagesYet(limit);
      while true
        invariant before == old(rows) && last >= 0 && done <= |before| && SplitAt(before, done, last)
        invariant rows == Progress(before, done) && updated == Changed(before, rows)
        invariant scanned == done - (|before| - PositiveIds(before))
        invariant done < |before| ==> AllFull(scanned, limit, batches)
        invariant AllFull(scanned, limit, batches) || FullPages(scanned, limit, batches)
        decreases |before| - done
      {
        var page := Page(rows, last, limit);
        PageIsNext(before, done, last, limit);
        if page == [] {
          break;
        }
        ghost var next := done + |page|;
        PageCorrected(before, done, next, last);
        EachRowOnce(before, done, next, last);
        OneMorePage(scanned, |page|, limit, batches);
        batches := batches + 1;
        scanned := scanned + |page|;
        PageAscends(before, done, next);
        var largest, zeros, ones := ReadPage(page, last);
        PageAdvances(before, done, next, last, largest);
        var changed := CorrectPage(zeros, ones);
        updated := updated + changed;
        last, done := largest, next;
      }
      AllCorrected(before);
      FullIsFullPages(scanned, limit, batches);
      marked := true;
      report := Report(true, batches, scanned, updated);
    }
  }

  function WithPositiveId(rows: seq<Row>): set<nat> { set k: nat | k < |rows| && rows[k].id > 0 }

  lemma OneMorePositive(rows: seq<Row>, n: nat)
    requires |rows| == n + 1
    ensures WithPositiveId(rows) == WithPositiveId(rows[..n]) + (if rows[n].id > 0 then {n} else {})
    ensures n !in WithPositiveId(rows[..n])
  {
    var init := rows[..n];
    forall k: nat | k < n ensures init[k] == rows[k] {
    }
  }

  /** The scanned count is the number of rows with a positive id. */
  lemma {:induction false} PositiveIdsMean(rows: seq<Row>)
    ensures PositiveIds(rows) == |WithPositiveId(rows)|
  {
    if rows == [] {
      assert WithPositiveId(rows) == {};
    } else {
      var n := |rows| - 1;
      PositiveIdsMean(rows[..n]);
      OneMorePositive(rows, n);
      hide WithPositiveId;
    }
  }

  function Differing(before: seq<Row>, after: seq<Row>): set<nat>
    requires |before| == |after|
  { set k: nat | k < |before| && before[k] != after[k] }

  /** The updated count is the number of rows that differ. */
  lemma {:induction false} ChangedMeans(before: seq<Row>, after: seq<Row>)
    requires |before| == |after|
    ensures Changed(before, after) == |Differing(before, after)|
  {
    if before == [] {
      assert Differing(before, after) == {};
    } else {
      var n := |before| - 1;
      var a, b := before[..n], after[..n];
      ChangedMeans(a, b);
      forall k: nat
        ensures k in Differing(before, after) <==> k in Differing(a, b) || (k == n && before[n] != after[n])
      {
        assert k < n ==> a[k] == before[k] && b[k] == after[k];
      }
      assert Differing(before, after) == Differing(a, b) + (if before[n] != after[n] then {n} else {});
    }
  }

  /** The number of batches is the scanned count divided by the batch size, rounded up. */
  lemma PagesMean(scanned: nat, limit: nat, batches: nat)
    requires limit > 0 && FullPages(scanned, limit, batches)
    ensures batches * limit >= scanned && (batches > 0 ==> (batches - 1) * limit < scanned)
  {
  }
}
