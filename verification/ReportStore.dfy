/** Reports with their staging and errors, and the worker's transactions on them. */
module ReportStore {
  import opened Common
  import opened MapFolds
  import opened CsvValidation
  import opened CsvAccounting
  import opened Batches
  import opened DuplicateRows
  import opened SnapshotModel
  import opened StockTables

  datatype Status = Pending | Processing | Completed | Failed

  datatype FailureKind = NoFailure | ValidationFailure | ProcessingFailure

  datatype Report = Report(
    status: Status,
    rowCount: nat,
    errorCount: nat,
    created: nat,
    updated: nat,
    zeroed: nat,
    failure: FailureKind)

  /** A report with its staged rows and its stored errors. */
  datatype Slot = Slot(report: Report, staging: Staging, errors: seq<Issue>)

  /** The reports are indexed in the order of their queue key (created_at, id). */
  datatype Db = Db(slots: seq<Slot>, tables: Tables)

  const NEW_REPORT: Slot := Slot(Report(Pending, 0, 0, 0, 0, 0, NoFailure), map[], [])

  predicate Open(slot: Slot) {
    slot.report.status == Pending || slot.report.status == Processing
  }

  // ---------------------------------------------------------------------
  // What an original contains
  // ---------------------------------------------------------------------

  function ByLine(rows: seq<ValidatedRow>): Staging {
    if rows == [] then map[]
    else ByLine(rows[..|rows| - 1])[rows[|rows| - 1].line := rows[|rows| - 1]]
  }

  predicate Ascending(rows: seq<ValidatedRow>) {
    forall i, j :: 0 <= i < j < |rows| ==> rows[i].line < rows[j].line
  }

  lemma {:induction false} ByLineHolds(rows: seq<ValidatedRow>)
    requires Ascending(rows)
    ensures |ByLine(rows)| == |rows|
    ensures forall i :: 0 <= i < |rows| ==> rows[i].line in ByLine(rows) && ByLine(rows)[rows[i].line] == rows[i]
    ensures forall l :: l in ByLine(rows) ==> exists i :: 0 <= i < |rows| && rows[i].line == l
  {
    if rows != [] {
      var init, last := rows[..|rows| - 1], rows[|rows| - 1];
      ByLineHolds(init);
      assert forall i :: 0 <= i < |init| ==> init[i] == rows[i];
      assert last.line !in ByLine(init);
      assert ByLine(rows).Keys == ByLine(init).Keys + {last.line};
      assert rows[|rows| - 1].line == last.line;
    }
  }

  /** The valid rows of an original by line number, from the verdict on it. */
  function RowsOfOriginal(v: Verdict): Staging {
    ByLine(RowsOf(v.events))
  }

  /** No record of the original was rejected. */
  predicate Clean(v: Verdict) {
    !v.raised && IssuesOf(v.events) == []
  }

  /** There are as many valid rows as counted records just in clean originals. */
  lemma CleanByCount(v: Verdict)
    requires Accounted(v)
    ensures Ascending(RowsOf(v.events))
    ensures |RowsOfOriginal(v)| == |RowsOf(v.events)| <= v.rowCount
    ensures Clean(v) <==> v.rowCount > 0 && |RowsOfOriginal(v)| == v.rowCount
    ensures Clean(v) ==> v.reachedEof
  {
    ByLineHolds(RowsOf(v.events));
  }

  ghost predicate PartOf(st: Staging, whole: Staging) {
    forall l :: l in st ==> l in whole && st[l] == whole[l]
  }

  /** The pigeonhole behind readiness by counting. */
  lemma AsManyIsAll(st: Staging, whole: Staging)
    requires PartOf(st, whole) && |st| >= |whole|
    ensures st == whole
  {
    var missing := whole.Keys - st.Keys;
    assert whole.Keys == st.Keys + missing;
    assert |whole.Keys| == |st.Keys| + |missing|;
    assert missing == {};
  }

  // ---------------------------------------------------------------------
  // Claim and recovery
  // ---------------------------------------------------------------------

  /** The first open report in queue order, or the number of reports. */
  function FirstOpen(slots: seq<Slot>, from: nat): (i: nat)
    requires from <= |slots|
    ensures from <= i <= |slots|
    ensures i < |slots| ==> Open(slots[i])
    ensures forall k :: from <= k < i ==> !Open(slots[k])
    decreases |slots| - from
  {
    if from == |slots| || Open(slots[from]) then from else FirstOpen(slots, from + 1)
  }

  predicate ValidationIsComplete(slot: Slot) {
    && slot.report.rowCount > 0 && slot.report.errorCount == 0
    && |slot.staging| == slot.report.rowCount && slot.errors == []
  }

  predicate Ready(slot: Slot) {
    slot.report.status == Processing && ValidationIsComplete(slot)
  }

  function Restarted(slot: Slot): Slot {
    Slot(slot.report.(status := Processing, rowCount := 0, errorCount := 0, failure := NoFailure), map[], [])
  }

  datatype Claim = NoReport | ForApply(rid: nat) | ForValidation(rid: nat)

  function ClaimNext(slots: seq<Slot>): (claim: Claim)
    ensures !claim.NoReport? ==> claim.rid < |slots| && Open(slots[claim.rid])
  {
    var i := FirstOpen(slots, 0);
    if i == |slots| then NoReport
    else if Ready(slots[i]) then ForApply(i)
    else ForValidation(i)
  }

  // ---------------------------------------------------------------------
  // Transactions of a validation
  // ---------------------------------------------------------------------

  /** The primary key (report_id, line_number). */
  predicate CanInsert(st: Staging, rows: seq<ValidatedRow>) {
    && (forall i :: 0 <= i < |rows| ==> rows[i].line !in st)
    && (forall i, j :: 0 <= i < j < |rows| ==> rows[i].line != rows[j].line)
  }

  datatype Written = Stored(slot: Slot) | KeyConflict

  function StoreBatch(slot: Slot, w: Write): Written {
    match w
    case StagingBatch(rows) =>
      if CanInsert(slot.staging, rows) then Stored(slot.(staging := slot.staging + ByLine(rows))) else KeyConflict
    case ErrorBatch(issues) => Stored(slot.(errors := slot.errors + issues))
  }

  ghost function StoreDuplicates(slot: Slot): Slot {
    slot.(errors := slot.errors + DuplicateIssues(slot.staging, Bound(slot.staging)))
  }

  function ValidationFailedSlot(slot: Slot, rowCount: nat, errorCount: nat): Slot {
    Slot(if slot.report.status != Processing then slot.report
         else slot.report.(status := Failed, rowCount := rowCount, errorCount := errorCount,
                           failure := ValidationFailure),
         map[], slot.errors)
  }

  function ValidatedSlot(slot: Slot, rowCount: nat): Slot {
    if slot.report.status != Processing then slot
    else slot.(report := slot.report.(rowCount := rowCount, errorCount := 0))
  }

  function FailedSlot(slot: Slot, code: IssueCode): Slot {
    var errors := slot.errors + [Issue(None, None, code)];
    var failed := slot.report.(status := Failed, errorCount := |errors|, failure := ProcessingFailure);
    Slot(if slot.report.status != Processing then slot.report
         else if code == ApplyError then failed.(created := 0, updated := 0, zeroed := 0)
         else failed,
         map[], errors)
  }

  // ---------------------------------------------------------------------
  // The apply transaction
  // ---------------------------------------------------------------------

  predicate CanApply(slot: Slot) {
    && slot.report.status == Processing && slot.report.errorCount == 0
    && slot.report.rowCount > 0 && |slot.staging| == slot.report.rowCount
  }

  function CompletedSlot(slot: Slot, c: Counters): Slot {
    Slot(slot.report.(status := Completed, created := c.created, updated := c.updated, zeroed := c.zeroed,
                      failure := NoFailure),
         map[], slot.errors)
  }

  datatype ApplyResult = ApplyCommitted(db: Db) | ApplyRaised

  ghost function ApplyReport(db: Db, i: nat, choices: Choices): ApplyResult
    requires i < |db.slots| && CanChoose(db.tables, db.slots[i].staging, choices)
  {
    if !CanApply(db.slots[i]) then ApplyRaised
    else match ApplyStock(db.tables, db.slots[i].staging, choices)
      case RolledBack => ApplyRaised
      case Applied(tables, counters) =>
        ApplyCommitted(Db(db.slots[i := CompletedSlot(db.slots[i], counters)], tables))
  }

  // ---------------------------------------------------------------------
  // The worker's program
  // ---------------------------------------------------------------------

  /** Where a worker stands between two of its transactions. */
  datatype Stage =
    | Idle
    | Holding
    | Validating(rid: nat, todo: seq<Write>)
    | CheckingDuplicates(rid: nat)
    | CountingErrors(rid: nat)
    | Deciding(rid: nat, errorCount: nat)
    | Applying(rid: nat)
    | ValidationRaised(rid: nat)
    | ApplyRaisedFor(rid: nat)
    | Done

  predicate HasReport(stage: Stage) {
    !stage.Idle? && !stage.Holding? && !stage.Done?
  }

  /** What follows once `todo` is all that is left of the stream. */
  function Streaming(rid: nat, todo: seq<Write>, raised: bool): Stage {
    if todo != [] then Validating(rid, todo)
    else if raised then ValidationRaised(rid)
    else CheckingDuplicates(rid)
  }

  function StartOf(rid: nat, v: Verdict, batchSize: nat): Stage {
    Streaming(rid, WritesOf(v, batchSize), v.raised)
  }

  ghost predicate CanTransact(db: Db, stage: Stage, originals: seq<Verdict>, choices: Choices) {
    && |db.slots| == |originals|
    && !stage.Idle? && !stage.Done?
    && (HasReport(stage) ==> stage.rid < |db.slots|)
    && (stage.Applying? ==> CanChoose(db.tables, db.slots[stage.rid].staging, choices))
  }

  function Put(db: Db, i: nat, slot: Slot): Db
    requires i < |db.slots|
  {
    db.(slots := db.slots[i := slot])
  }

  /** The transaction a worker makes at `stage` and where it stands after it. */
  ghost function Transact(db: Db, stage: Stage, originals: seq<Verdict>, batchSize: nat, choices: Choices): (Db, Stage)
    requires CanTransact(db, stage, originals, choices)
  {
    match stage
    case Holding =>
      (match ClaimNext(db.slots)
       case NoReport => (db, Done)
       case ForApply(i) => (db, Applying(i))
       case ForValidation(i) => (Put(db, i, Restarted(db.slots[i])), StartOf(i, originals[i], batchSize)))
    case Validating(i, todo) =>
      if todo == [] then (db, Streaming(i, [], originals[i].raised))
      else (match StoreBatch(db.slots[i], todo[0])
            case KeyConflict => (db, ValidationRaised(i))
            case Stored(slot) => (Put(db, i, slot), Streaming(i, todo[1..], originals[i].raised)))
    case CheckingDuplicates(i) =>
      (Put(db, i, StoreDuplicates(db.slots[i])), CountingErrors(i))
    case CountingErrors(i) =>
      (db, Deciding(i, |db.slots[i].errors|))
    case Deciding(i, errorCount) =>
      var v := originals[i];
      if errorCount > 0 then (Put(db, i, ValidationFailedSlot(db.slots[i], v.rowCount, errorCount)), Done)
      else if !v.reachedEof || v.rowCount == 0 then (db, ValidationRaised(i))
      else (Put(db, i, ValidatedSlot(db.slots[i], v.rowCount)), Done)
    case Applying(i) =>
      (match ApplyReport(db, i, choices)
       case ApplyRaised => (db, ApplyRaisedFor(i))
       case ApplyCommitted(after) => (after, Done))
    case ValidationRaised(i) =>
      (Put(db, i, FailedSlot(db.slots[i], ProcessingError)), Done)
    case ApplyRaisedFor(i) =>
      (Put(db, i, FailedSlot(db.slots[i], ApplyError)), Done)
  }

  /** Where an exception leaves the worker. */
  function OnException(stage: Stage): Stage {
    match stage
    case Validating(i, _) => ValidationRaised(i)
    case CheckingDuplicates(i) => ValidationRaised(i)
    case CountingErrors(i) => ValidationRaised(i)
    case Deciding(i, _) => ValidationRaised(i)
    case Applying(i) => ApplyRaisedFor(i)
    case Idle => Idle
    case _ => Done
  }
}
