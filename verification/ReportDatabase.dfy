/** The database as the worker changes it: rows of all reports in shared tables. */
module ReportDatabase {
  import opened Common
  import opened CsvValidation
  import opened Batches
  import opened DuplicateRows
  import opened SnapshotModel
  import opened StockTables
  import opened StockStatements
  import opened ReportStore

  type StagingTable = map<(nat, nat), ValidatedRow>

  datatype StoredError = StoredError(report: nat, issue: Issue)

  function StagingOf(t: StagingTable, i: nat): Staging {
    map k | k in t && k.0 == i :: k.1 := t[k]
  }

  function ErrorsOf(errors: seq<StoredError>, i: nat): seq<Issue> {
    if errors == [] then []
    else
      var last := errors[|errors| - 1];
      ErrorsOf(errors[..|errors| - 1], i) + if last.report == i then [last.issue] else []
  }

  function SlotAt(reports: seq<Report>, staging: StagingTable, errors: seq<StoredError>, i: nat): Slot
    requires i < |reports|
  {
    Slot(reports[i], StagingOf(staging, i), ErrorsOf(errors, i))
  }

  function SlotsOf(reports: seq<Report>, staging: StagingTable, errors: seq<StoredError>): seq<Slot> {
    seq(|reports|, i requires 0 <= i < |reports| => SlotAt(reports, staging, errors, i))
  }

  function WithoutReport(errors: seq<StoredError>, i: nat): seq<StoredError> {
    if errors == [] then []
    else
      var last := errors[|errors| - 1];
      WithoutReport(errors[..|errors| - 1], i) + if last.report == i then [] else [last]
  }

  lemma {:induction false} ErrorsDeleted(errors: seq<StoredError>, i: nat, j: nat)
    ensures ErrorsOf(WithoutReport(errors, i), j) == if j == i then [] else ErrorsOf(errors, j)
  {
    if errors != [] {
      var init, last := errors[..|errors| - 1], errors[|errors| - 1];
      ErrorsDeleted(init, i, j);
      assert WithoutReport(init, i) + [] == WithoutReport(init, i);
      if last.report != i {
        ErrorAppended(WithoutReport(init, i), last, j);
      }
    }
  }

  lemma ErrorAppended(errors: seq<StoredError>, e: StoredError, j: nat)
    ensures ErrorsOf(errors + [e], j) == ErrorsOf(errors, j) + if e.report == j then [e.issue] else []
  {
    assert (errors + [e])[..|errors|] == errors;
  }

  lemma StagingDeleted(t: StagingTable, i: nat, j: nat)
    ensures StagingOf(map k | k in t && k.0 != i :: t[k], j) == if j == i then map[] else StagingOf(t, j)
  {
  }

  lemma StagingInserted(t: StagingTable, i: nat, l: nat, r: ValidatedRow, j: nat)
    ensures StagingOf(t[(i, l) := r], j) == if j == i then StagingOf(t, i)[l := r] else StagingOf(t, j)
  {
  }

  lemma SlotReplaced(reports: seq<Report>, staging: StagingTable, errors: seq<StoredError>,
                     reports': seq<Report>, staging': StagingTable, errors': seq<StoredError>, i: nat)
    requires i < |reports| == |reports'|
    requires forall j :: 0 <= j < |reports| && j != i ==>
               SlotAt(reports', staging', errors', j) == SlotAt(reports, staging, errors, j)
    ensures SlotsOf(reports', staging', errors')
         == SlotsOf(reports, staging, errors)[i := SlotAt(reports', staging', errors', i)]
  {
  }

  lemma {:induction false} NoErrors(errors: seq<StoredError>, n: nat)
    requires forall k :: 0 <= k < |errors| ==> errors[k].report < n
    ensures ErrorsOf(errors, n) == []
  {
    if errors != [] {
      NoErrors(errors[..|errors| - 1], n);
    }
  }

  class Database {
    var reports: seq<Report>
    var staging: StagingTable
    var errors: seq<StoredError>
    var tables: Tables
    var nextWarehouseId: nat
    var nextProductId: nat

    constructor ()
      ensures Valid() && Contents() == Db([], Tables(map[], map[], map[]))
    {
      reports, staging, errors := [], map[], [];
      tables := Tables(map[], map[], map[]);
      nextWarehouseId, nextProductId := 1, 1;
    }

    function Slots(): seq<Slot>
      reads `reports, `staging, `errors
    {
      SlotsOf(reports, staging, errors)
    }

    function Contents(): Db
      reads this
    {
      Db(Slots(), tables)
    }

    /** Foreign keys to the reports, and identity sequences. */
    ghost predicate Valid()
      reads this
    {
      && (forall k :: k in staging ==> k.0 < |reports|)
      && (forall k :: 0 <= k < |errors| ==> errors[k].report < |reports|)
      && IdsBelow(tables.warehouses, nextWarehouseId) && IdsBelow(tables.products, nextProductId)
    }

    // -------------------------------------------------------------------
    // Statements
    // -------------------------------------------------------------------

    method InsertReport()
      requires Valid()
      modifies `reports
      ensures Valid() && Slots() == old(Slots()) + [NEW_REPORT]
    {
      NoErrors(errors, |reports|);
      assert StagingOf(staging, |reports|) == map[];
      reports := reports + [NEW_REPORT.report];
    }

    method UpdateReport(i: nat, report: Report)
      requires Valid() && i < |reports|
      modifies `reports
      ensures Valid() && |reports| == old(|reports|)
      ensures Slots() == old(Slots())[i := old(Slots()[i]).(report := report)]
    {
      ghost var before := reports;
      reports := reports[i := report];
      SlotReplaced(before, staging, errors, reports, staging, errors, i);
    }

    method DeleteStaging(i: nat)
      requires Valid() && i < |reports|
      modifies `staging
      ensures Valid() && Slots() == old(Slots())[i := old(Slots()[i]).(staging := map[])]
    {
      ghost var before := staging;
      staging := map k | k in staging && k.0 != i :: staging[k];
      forall j: nat
        ensures StagingOf(staging, j) == if j == i then map[] else StagingOf(before, j)
      {
        StagingDeleted(before, i, j);
      }
      SlotReplaced(reports, before, errors, reports, staging, errors, i);
    }

    method DeleteErrors(i: nat)
      requires Valid() && i < |reports|
      modifies `errors
      ensures Valid() && Slots() == old(Slots())[i := old(Slots()[i]).(errors := [])]
    {
      ghost var before := errors;
      errors := WithoutReport(errors, i);
      WithoutReportFrom(before, i, |reports|);
      forall j: nat
        ensures ErrorsOf(errors, j) == if j == i then [] else ErrorsOf(before, j)
      {
        ErrorsDeleted(before, i, j);
      }
      SlotReplaced(reports, staging, before, reports, staging, errors, i);
    }

    method InsertError(i: nat, issue: Issue)
      requires Valid() && i < |reports|
      modifies `errors
      ensures Valid()
      ensures Slots() == old(Slots())[i := WithIssue(old(Slots()[i]), issue)]
    {
      ghost var before := errors;
      errors := errors + [StoredError(i, issue)];
      forall j: nat
        ensures ErrorsOf(errors, j) == ErrorsOf(before, j) + if j == i then [issue] else []
      {
        ErrorAppended(before, StoredError(i, issue), j);
      }
      SlotReplaced(reports, staging, before, reports, staging, errors, i);
    }

    method InsertRow(i: nat, row: ValidatedRow)
      requires Valid() && i < |reports|
      modifies `staging
      ensures Valid()
      ensures Slots() == old(Slots())[i := WithRow(old(Slots()[i]), row)]
    {
      ghost var before := staging;
      staging := staging[(i, row.line) := row];
      forall j: nat
        ensures StagingOf(staging, j) == if j == i then StagingOf(before, i)[row.line := row] else StagingOf(before, j)
      {
        StagingInserted(before, i, row.line, row, j);
      }
      SlotReplaced(reports, before, errors, reports, staging, errors, i);
    }

    method CountStaging(i: nat) returns (n: nat)
      requires i < |reports|
      ensures n == |Slots()[i].staging|
    {
      n := |StagingOf(staging, i)|;
    }

    method CountErrors(i: nat) returns (n: nat)
      requires i < |reports|
      ensures n == |Slots()[i].errors|
    {
      n := |ErrorsOf(errors, i)|;
    }

    /** A row under the primary key (report_id, line_number). */
    method TryInsertRow(i: nat, row: ValidatedRow) returns (inserted: bool)
      requires Valid() && i < |reports|
      modifies `staging
      ensures Valid() && inserted == (row.line !in old(Slots()[i]).staging)
      ensures Slots() == if inserted then old(Slots())[i := WithRow(old(Slots()[i]), row)] else old(Slots())
    {
      inserted := (i, row.line) !in staging;
      if inserted {
        InsertRow(i, row);
      }
    }

    // -------------------------------------------------------------------
    // Claim and recovery
    // -------------------------------------------------------------------

    /** SELECT ... WHERE status IN (pending, processing) ORDER BY key LIMIT 1. */
    method SelectFirstOpen() returns (i: nat)
      ensures i == FirstOpen(Slots(), 0)
    {
      i := 0;
      while i < |reports| && reports[i].status != Pending && reports[i].status != Processing
        invariant i <= |reports| && FirstOpen(Slots(), 0) == FirstOpen(Slots(), i)
      {
        i := i + 1;
      }
    }

    method Restart(i: nat)
      requires Valid() && i < |reports|
      modifies `reports, `staging, `errors
      ensures Valid() && |reports| == old(|reports|)
      ensures Slots() == old(Slots())[i := Restarted(old(Slots()[i]))]
    {
      DeleteStaging(i);
      DeleteErrors(i);
      UpdateReport(i, reports[i].(status := Processing, rowCount := 0, errorCount := 0, failure := NoFailure));
    }

    /** The oldest open report: handed to apply when its validation is complete,
        otherwise cleared and restarted. */
    method ClaimOrRecover() returns (claim: Claim)
      requires Valid()
      modifies `reports, `staging, `errors
      ensures Valid() && |reports| == old(|reports|)
      ensures claim == ClaimNext(old(Slots()))
      ensures Slots() == if claim.ForValidation? then old(Slots())[claim.rid := Restarted(old(Slots()[claim.rid]))]
                         else old(Slots())
    {
      var i := SelectFirstOpen();
      if i == |reports| {
        return NoReport;
      }
      if reports[i].status == Processing {
        var complete := CheckValidation(i);
        if complete {
          return ForApply(i);
        }
      }
      Restart(i);
      claim := ForValidation(i);
    }

    method CheckValidation(i: nat) returns (complete: bool)
      requires i < |reports|
      ensures complete == ValidationIsComplete(Slots()[i])
    {
      if reports[i].rowCount == 0 || reports[i].errorCount != 0 {
        return false;
      }
      var stagingCount := CountStaging(i);
      var errorCount := CountErrors(i);
      complete := stagingCount == reports[i].rowCount && errorCount == 0;
    }

    // -------------------------------------------------------------------
    // Validation
    // -------------------------------------------------------------------

    /** One INSERT of many rows, up to the first key conflict. */
    method InsertRows(i: nat, rows: seq<ValidatedRow>) returns (inserted: bool)
      requires Valid() && i < |reports|
      modifies `staging
      ensures Valid() && inserted == CanInsert(old(Slots()[i]).staging, rows)
      ensures inserted ==> Slots() == old(Slots())[i := InsertedRows(old(Slots()[i]), rows)]
    {
      ghost var before := Slots();
      NoneInserted(before, i);
      for k := 0 to |rows|
        invariant Valid() && CanInsert(before[i].staging, rows[..k])
        invariant Slots() == before[i := InsertedRows(before[i], rows[..k])]
      {
        InsertNext(before, i, rows, k);
        inserted := TryInsertRow(i, rows[k]);
        if !inserted {
          return;
        }
      }
      assert rows[..|rows|] == rows;
      inserted := true;
    }

    /** A key conflict rolls the whole batch back. */
    method InsertStagingBatch(i: nat, rows: seq<ValidatedRow>) returns (stored: bool)
      requires Valid() && i < |reports|
      modifies `staging
      ensures Valid()
      ensures stored == CanInsert(old(Slots()[i]).staging, rows)
      ensures Slots() == if stored then old(Slots())[i := InsertedRows(old(Slots()[i]), rows)] else old(Slots())
    {
      var saved := staging;
      stored := InsertRows(i, rows);
      if !stored {
        staging := saved;
      }
    }

    method InsertErrorBatch(i: nat, issues: seq<Issue>)
      requires Valid() && i < |reports|
      modifies `errors
      ensures Valid() && Slots() == old(Slots())[i := InsertedErrors(old(Slots()[i]), issues)]
    {
      ghost var before, slot := Slots(), Slots()[i];
      NoneInserted(before, i);
      for k := 0 to |issues|
        invariant Valid() && Slots() == before[i := InsertedErrors(slot, issues[..k])]
      {
        ErrorInserted(before, i, issues[..k], issues[k]);
        assert issues[..k + 1] == issues[..k] + [issues[k]];
        InsertError(i, issues[k]);
      }
      assert issues[..|issues|] == issues;
    }

    method WriteBatch(i: nat, w: Write) returns (stored: bool)
      requires Valid() && i < |reports|
      modifies `staging, `errors
      ensures Valid()
      ensures stored == StoreBatch(old(Slots()[i]), w).Stored?
      ensures Slots() == if stored then old(Slots())[i := StoreBatch(old(Slots()[i]), w).slot] else old(Slots())
    {
      match w {
        case StagingBatch(rows) =>
          stored := InsertStagingBatch(i, rows);
        case ErrorBatch(issues) =>
          InsertErrorBatch(i, issues);
          stored := true;
      }
    }

    /** One error for every staged row with an earlier row of the same pair. */
    method InsertDuplicateErrors(i: nat)
      requires Valid() && i < |reports|
      modifies `errors
      ensures Valid() && Slots() == old(Slots())[i := StoreDuplicates(old(Slots()[i]))]
    {
      var st := StagingOf(staging, i);
      var n := LineBound(st);
      ghost var before, slot := Slots(), Slots()[i];
      NoneInserted(before, i);
      for l := 0 to n
        invariant Valid() && Slots() == before[i := InsertedErrors(slot, DuplicateIssues(st, l))]
      {
        if l in DuplicateLines(st) {
          var issue := Issue(Some(l), None, DuplicateWarehouseSku);
          ErrorInserted(before, i, DuplicateIssues(st, l), issue);
          InsertError(i, issue);
        } else {
          assert DuplicateIssues(st, l + 1) == DuplicateIssues(st, l);
        }
      }
    }

    method FinalizeValidationFailure(i: nat, rowCount: nat, errorCount: nat)
      requires Valid() && i < |reports|
      modifies `reports, `staging
      ensures Valid()
      ensures Slots() == old(Slots())[i := ValidationFailedSlot(old(Slots()[i]), rowCount, errorCount)]
    {
      DeleteStaging(i);
      if reports[i].status == Processing {
        UpdateReport(i, reports[i].(status := Status.Failed, rowCount := rowCount, errorCount := errorCount,
                                    failure := ValidationFailure));
      }
    }

    method FinalizeValidation(i: nat, rowCount: nat)
      requires Valid() && i < |reports|
      modifies `reports
      ensures Valid() && Slots() == old(Slots())[i := ValidatedSlot(old(Slots()[i]), rowCount)]
    {
      if reports[i].status == Processing {
        UpdateReport(i, reports[i].(rowCount := rowCount, errorCount := 0));
      }
    }

    /** What both failure transactions do first. */
    method ReplaceStagingByError(i: nat, code: IssueCode) returns (errorCount: nat)
      requires Valid() && i < |reports|
      modifies `staging, `errors
      ensures Valid() && errorCount == |old(Slots()[i]).errors| + 1
      ensures Slots() == old(Slots())[i := Discarded(old(Slots()[i]), code)]
    {
      DeleteStaging(i);
      InsertError(i, Issue(None, None, code));
      errorCount := CountErrors(i);
    }

    method MarkProcessingFailed(i: nat)
      requires Valid() && i < |reports|
      modifies `reports, `staging, `errors
      ensures Valid() && Slots() == old(Slots())[i := FailedSlot(old(Slots()[i]), ProcessingError)]
    {
      var errorCount := ReplaceStagingByError(i, ProcessingError);
      if reports[i].status == Processing {
        UpdateReport(i, reports[i].(status := Status.Failed, errorCount := OrOne(errorCount),
                                    failure := ProcessingFailure));
      }
    }

    method MarkApplyFailed(i: nat)
      requires Valid() && i < |reports|
      modifies `reports, `staging, `errors
      ensures Valid() && Slots() == old(Slots())[i := FailedSlot(old(Slots()[i]), ApplyError)]
    {
      var errorCount := ReplaceStagingByError(i, ApplyError);
      if reports[i].status == Processing {
        UpdateReport(i, reports[i].(status := Status.Failed, errorCount := OrOne(errorCount),
                                    created := 0, updated := 0, zeroed := 0, failure := ProcessingFailure));
      }
    }

    // -------------------------------------------------------------------
    // Apply
    // -------------------------------------------------------------------

    /** The test made under the row lock. */
    method IsReady(i: nat) returns (ready: bool)
      requires i < |reports|
      ensures ready == CanApply(Slots()[i])
    {
      var stagingCount := CountStaging(i);
      ready := reports[i].status == Processing && reports[i].errorCount == 0 && reports[i].rowCount > 0
               && stagingCount == reports[i].rowCount;
    }

    /** Complete report `i`, or leave everything but the identity sequences alone. */
    method Apply(i: nat) returns (committed: bool, ghost choices: Choices)
      requires Valid() && i < |reports|
      modifies this
      ensures Valid() && |reports| == old(|reports|)
      ensures CanChoose(old(tables), old(Slots()[i]).staging, choices)
      ensures var result := ApplyReport(old(Contents()), i, choices);
              && committed == result.ApplyCommitted?
              && Contents() == if committed then result.db else old(Contents())
    {
      ghost var before := Contents();
      var st := StagingOf(staging, i);
      var ready := IsReady(i);
      if !ready {
        choices := ChoicesExist(tables, st, nextWarehouseId, nextProductId);
        return false, choices;
      }
      assert before.slots[i].staging == st && CanApply(before.slots[i]);
      var applied, warehouseId, productId;
      applied, warehouseId, productId, choices := ApplyRows(tables, st, nextWarehouseId, nextProductId);
      ghost var result := ReportApplied(before, i, tables, st, choices, applied);
      committed := Conclude(i, applied, warehouseId, productId, result);
    }

    /** Commit the working copy, or drop it. */
    method Conclude(i: nat, applied: Applied, warehouseId: nat, productId: nat, ghost result: ApplyResult)
      returns (committed: bool)
      requires Valid() && i < |reports|
      requires warehouseId >= nextWarehouseId && productId >= nextProductId
      requires applied.Applied? ==>
                 IdsBelow(applied.tables.warehouses, warehouseId) && IdsBelow(applied.tables.products, productId)
      requires result == Concluded(Contents(), i, applied)
      modifies this
      ensures Valid() && |reports| == old(|reports|) && committed == result.ApplyCommitted?
      ensures Contents() == if committed then result.db else old(Contents())
    {
      nextWarehouseId, nextProductId := warehouseId, productId;
      committed := applied.Applied?;
      if committed {
        tables := applied.tables;
        CompleteReport(i, applied.counters);
      }
    }

    method CompleteReport(i: nat, counters: Counters)
      requires Valid() && i < |reports|
      modifies `reports, `staging
      ensures Valid() && |reports| == old(|reports|)
      ensures Slots() == old(Slots())[i := CompletedSlot(old(Slots()[i]), counters)]
    {
      UpdateReport(i, reports[i].(status := Completed, created := counters.created, updated := counters.updated,
                                  zeroed := counters.zeroed, failure := NoFailure));
      DeleteStaging(i);
    }
  }

  lemma ChoicesExist(t: Tables, st: Staging, nextWarehouseId: nat, nextProductId: nat) returns (choices: Choices)
    requires IdsBelow(t.warehouses, nextWarehouseId) && IdsBelow(t.products, nextProductId)
    ensures CanChoose(t, st, choices)
  {
    var warehouseIds := FreshIdsExist(t.warehouses, Codes(st), nextWarehouseId);
    var productIds := FreshIdsExist(t.products, Skus(st), nextProductId);
    var order := OrderExists(st.Keys);
    choices := Choices(warehouseIds, productIds, order);
  }

  function Concluded(db: Db, i: nat, applied: Applied): ApplyResult
    requires i < |db.slots|
  {
    match applied
    case RolledBack => ApplyRaised
    case Applied(t, c) => ApplyCommitted(Db(db.slots[i := CompletedSlot(db.slots[i], c)], t))
  }

  lemma ReportApplied(db: Db, i: nat, t: Tables, st: Staging, choices: Choices, applied: Applied)
    returns (result: ApplyResult)
    requires i < |db.slots| && t == db.tables && st == db.slots[i].staging && CanApply(db.slots[i])
    requires CanChoose(t, st, choices) && applied == ApplyStock(t, st, choices)
    ensures result == ApplyReport(db, i, choices) == Concluded(db, i, applied)
  {
    result := ApplyReport(db, i, choices);
  }

  function OrOne(n: nat): nat {
    if n == 0 then 1 else n
  }

  function WithRow(slot: Slot, row: ValidatedRow): Slot {
    slot.(staging := slot.staging[row.line := row])
  }

  function WithIssue(slot: Slot, issue: Issue): Slot {
    slot.(errors := slot.errors + [issue])
  }

  function InsertedRows(slot: Slot, rows: seq<ValidatedRow>): Slot {
    slot.(staging := slot.staging + ByLine(rows))
  }

  function Discarded(slot: Slot, code: IssueCode): Slot {
    slot.(staging := map[], errors := slot.errors + [Issue(None, None, code)])
  }

  function InsertedErrors(slot: Slot, issues: seq<Issue>): Slot {
    slot.(errors := slot.errors + issues)
  }

  lemma {:induction false} ByLineKeys(rows: seq<ValidatedRow>, l: nat)
    ensures l in ByLine(rows) <==> exists k :: 0 <= k < |rows| && rows[k].line == l
  {
    if rows != [] {
      var init, last := rows[..|rows| - 1], rows[|rows| - 1];
      ByLineKeys(init, l);
      assert forall k :: 0 <= k < |init| ==> init[k] == rows[k];
      assert rows[|rows| - 1].line == last.line;
    }
  }

  lemma NoneInserted(slots: seq<Slot>, i: nat)
    requires i < |slots|
    ensures slots[i := InsertedRows(slots[i], [])] == slots == slots[i := InsertedErrors(slots[i], [])]
  {
    assert slots[i].staging + ByLine([]) == slots[i].staging;
    assert slots[i].errors + [] == slots[i].errors;
  }

  /** Inserting row `k` after the rows before it. */
  lemma InsertNext(slots: seq<Slot>, i: nat, rows: seq<ValidatedRow>, k: nat)
    requires i < |slots| && k < |rows| && CanInsert(slots[i].staging, rows[..k])
    ensures var now, next := InsertedRows(slots[i], rows[..k]), InsertedRows(slots[i], rows[..k + 1]);
            && (CanInsert(slots[i].staging, rows[..k + 1]) <==> rows[k].line !in now.staging)
            && (rows[k].line in now.staging ==> !CanInsert(slots[i].staging, rows))
            && slots[i := now][i := WithRow(now, rows[k])] == slots[i := next]
  {
    var st := slots[i].staging;
    ByLineKeys(rows[..k], rows[k].line);
    assert rows[..k + 1][..k] == rows[..k];
    assert st + ByLine(rows[..k + 1]) == (st + ByLine(rows[..k]))[rows[k].line := rows[k]];
  }

  lemma ErrorInserted(slots: seq<Slot>, i: nat, issues: seq<Issue>, issue: Issue)
    requires i < |slots|
    ensures var now := InsertedErrors(slots[i], issues);
            slots[i := now][i := WithIssue(now, issue)] == slots[i := InsertedErrors(slots[i], issues + [issue])]
  {
    assert slots[i].errors + issues + [issue] == slots[i].errors + (issues + [issue]);
  }

  lemma {:induction false} WithoutReportFrom(errors: seq<StoredError>, i: nat, n: nat)
    requires forall k :: 0 <= k < |errors| ==> errors[k].report < n
    ensures forall k :: 0 <= k < |WithoutReport(errors, i)| ==> WithoutReport(errors, i)[k].report < n
  {
    if errors != [] {
      WithoutReportFrom(errors[..|errors| - 1], i, n);
    }
  }
}
