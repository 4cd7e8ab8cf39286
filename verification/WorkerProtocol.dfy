/** Any number of workers, the advisory lock, crashes and faults as a state machine. */
module WorkerProtocol {
  import opened Common
  import opened CsvValidation
  import opened CsvAccounting
  import opened Batches
  import opened SnapshotModel
  import opened StockTables
  import opened ReportStore

  /** `checked`: the worker has found its lock connection alive since its last
      transaction. */
  datatype Worker = Worker(stage: Stage, checked: bool)

  /** `holder` is the worker whose lock connection the server still knows. */
  datatype State = State(db: Db, originals: seq<Verdict>, workers: seq<Worker>, holder: Option<nat>)

  datatype Action =
    | Register(verdict: Verdict)
    | Acquire(w: nat)
    | LoseConnection
    | Crash(w: nat)
    | Release(w: nat)
    | CheckLock(w: nat)
    | Commit(w: nat, choices: Choices, acknowledged: bool)
    | Fault(w: nat)

  const EMPTY_TABLES: Tables := Tables(map[], map[], map[])
  const IDLE: Worker := Worker(Idle, false)

  predicate Initial(s: State) {
    && s.db == Db([], EMPTY_TABLES) && s.originals == [] && s.holder == None
    && forall w :: 0 <= w < |s.workers| ==> s.workers[w] == IDLE
  }

  /** The claim follows the acquisition directly; every other transaction follows
      a successful check of the lock. */
  predicate MayWrite(worker: Worker) {
    worker.stage.Holding? || (HasReport(worker.stage) && worker.checked)
  }

  ghost predicate Enabled(s: State, a: Action) {
    match a
    case Register(v) => Accounted(v)
    case Acquire(w) => w < |s.workers| && s.workers[w].stage.Idle? && s.holder == None
    case LoseConnection => s.holder.Some?
    case Crash(w) => w < |s.workers|
    case Release(w) => w < |s.workers| && s.workers[w].stage.Done?
    case CheckLock(w) => w < |s.workers| && HasReport(s.workers[w].stage)
    case Commit(w, choices, _) =>
      w < |s.workers| && MayWrite(s.workers[w]) && CanTransact(s.db, s.workers[w].stage, s.originals, choices)
    case Fault(w) => w < |s.workers| && (HasReport(s.workers[w].stage) || s.workers[w].stage.Holding?)
  }

  function WithWorker(s: State, w: nat, stage: Stage, checked: bool): State
    requires w < |s.workers|
  {
    s.(workers := s.workers[w := Worker(stage, checked)])
  }

  function Unlock(s: State, w: nat): State {
    if s.holder == Some(w) then s.(holder := None) else s
  }

  /** One step. A commit that is not acknowledged takes effect, but the worker sees
      an exception; a check without the lock ends the worker's attempt. */
  ghost function Step(s: State, a: Action, batchSize: nat): State
    requires Enabled(s, a)
  {
    match a
    case Register(v) =>
      s.(db := s.db.(slots := s.db.slots + [NEW_REPORT]), originals := s.originals + [v])
    case Acquire(w) => WithWorker(s, w, Holding, false).(holder := Some(w))
    case LoseConnection => s.(holder := None)
    case Crash(w) => Unlock(WithWorker(s, w, Idle, false), w)
    case Release(w) => Unlock(WithWorker(s, w, Idle, false), w)
    case CheckLock(w) =>
      if s.holder == Some(w) then WithWorker(s, w, s.workers[w].stage, true)
      else WithWorker(s, w, Idle, false)
    case Commit(w, choices, acknowledged) =>
      var stage := s.workers[w].stage;
      var (db, next) := Transact(s.db, stage, s.originals, batchSize, choices);
      WithWorker(s.(db := db), w, if acknowledged then next else OnException(stage), false)
    case Fault(w) => WithWorker(s, w, OnException(s.workers[w].stage), false)
  }

  ghost predicate StepAt(states: seq<State>, actions: seq<Action>, batchSize: nat, k: nat) {
    && k < |actions| && k + 1 < |states|
    && Enabled(states[k], actions[k]) && states[k + 1] == Step(states[k], actions[k], batchSize)
  }

  /** `states` is a run of the system under `actions`. */
  ghost predicate IsRun(states: seq<State>, actions: seq<Action>, batchSize: nat) {
    && |states| == |actions| + 1
    && Initial(states[0])
    && forall k: nat :: k < |actions| ==> StepAt(states, actions, batchSize, k)
  }

  // ---------------------------------------------------------------------
  // The invariant of every run
  // ---------------------------------------------------------------------

  /** What the row of a report says about its end: only a failed report has a kind of
      failure, one that failed by validation has the row count of its original, and
      only a completed one has counted changes. */
  predicate EndFacts(report: Report, v: Verdict) {
    && (report.failure == NoFailure <==> report.status != Status.Failed)
    && (report.failure == ValidationFailure ==> report.rowCount == v.rowCount)
    && (report.status != Completed ==> report.created == 0 && report.updated == 0 && report.zeroed == 0)
  }

  /** Staging is part of the original, and a row count, once set, is the original's. */
  ghost predicate SlotInv(slot: Slot, v: Verdict) {
    && EndFacts(slot.report, v)
    && PartOf(slot.staging, RowsOfOriginal(v))
    && (slot.report.rowCount == 0 || slot.report.rowCount == v.rowCount)
    && (slot.report.status == Completed ==> Clean(v) && slot.report.rowCount > 0)
  }

  /** Whatever has left pending has only closed reports before it. */
  ghost predicate NoOvertaking(slots: seq<Slot>) {
    forall i, j :: 0 <= i < j < |slots| && slots[j].report.status != Pending ==> !Open(slots[i])
  }

  ghost predicate SlotsInv(slots: seq<Slot>, originals: seq<Verdict>) {
    && |slots| == |originals|
    && (forall i :: 0 <= i < |originals| ==> Accounted(originals[i]))
    && (forall i :: 0 <= i < |slots| ==> SlotInv(slots[i], originals[i]))
    && NoOvertaking(slots)
  }

  ghost predicate DbInv(db: Db, originals: seq<Verdict>) {
    SlotsInv(db.slots, originals) && ValidTables(db.tables)
  }

  ghost predicate BatchOf(w: Write, whole: Staging) {
    w.StagingBatch? ==>
      forall i :: 0 <= i < |w.rows| ==> w.rows[i].line in whole && whole[w.rows[i].line] == w.rows[i]
  }

  ghost predicate StageInv(stage: Stage, originals: seq<Verdict>) {
    HasReport(stage) ==>
      && stage.rid < |originals|
      && (stage.Validating? ==>
            forall k :: 0 <= k < |stage.todo| ==> BatchOf(stage.todo[k], RowsOfOriginal(originals[stage.rid])))
  }

  ghost predicate Inv(s: State) {
    && DbInv(s.db, s.originals)
    && forall w :: 0 <= w < |s.workers| ==> StageInv(s.workers[w].stage, s.originals)
  }

  // ---------------------------------------------------------------------
  // The transactions keep the invariant
  // ---------------------------------------------------------------------

  /** A slot change that completes nothing and opens nothing. */
  ghost predicate Quiet(a: Slot, b: Slot) {
    b.report.status == a.report.status || (a.report.status == Processing && b.report.status == Status.Failed)
  }

  lemma QuietOrder(slots: seq<Slot>, i: nat, slot: Slot)
    requires NoOvertaking(slots) && i < |slots| && Quiet(slots[i], slot)
    ensures NoOvertaking(slots[i := slot])
  {
    var after := slots[i := slot];
    forall k, j | 0 <= k < j < |after| && after[j].report.status != Pending
      ensures !Open(after[k])
    {
      assert slots[j].report.status != Pending && !Open(slots[k]);
    }
  }

  lemma PendingAfterOpen(slots: seq<Slot>, i: nat)
    requires NoOvertaking(slots) && i < |slots| && Open(slots[i])
    ensures forall j :: i < j < |slots| ==> slots[j].report.status == Pending
  {
  }

  /** Only the first open report leaves pending. */
  lemma ClaimOrder(slots: seq<Slot>, i: nat, slot: Slot)
    requires NoOvertaking(slots) && i < |slots| && Open(slots[i])
    requires forall k :: 0 <= k < i ==> !Open(slots[k])
    ensures NoOvertaking(slots[i := slot])
  {
    PendingAfterOpen(slots, i);
  }

  lemma PutKeeps(db: Db, i: nat, slot: Slot, originals: seq<Verdict>)
    requires DbInv(db, originals) && i < |db.slots|
    requires SlotInv(slot, originals[i]) && NoOvertaking(db.slots[i := slot])
    ensures DbInv(Put(db, i, slot), originals)
  {
  }

  lemma QuietKeeps(db: Db, i: nat, slot: Slot, originals: seq<Verdict>)
    requires DbInv(db, originals) && i < |db.slots|
    requires Quiet(db.slots[i], slot) && SlotInv(slot, originals[i])
    ensures DbInv(Put(db, i, slot), originals)
  {
    QuietOrder(db.slots, i, slot);
    PutKeeps(db, i, slot, originals);
  }

  lemma ClaimKeeps(db: Db, i: nat, originals: seq<Verdict>)
    requires DbInv(db, originals) && i < |db.slots| && Open(db.slots[i])
    requires forall k :: 0 <= k < i ==> !Open(db.slots[k])
    ensures DbInv(Put(db, i, Restarted(db.slots[i])), originals)
  {
    var slot := Restarted(db.slots[i]);
    ClaimOrder(db.slots, i, slot);
    assert SlotInv(slot, originals[i]);
    PutKeeps(db, i, slot, originals);
  }

  /** A report that passes the counting test has exactly the rows of its original
      staged, and the original is clean. */
  lemma CountingIsSound(slot: Slot, v: Verdict)
    requires SlotInv(slot, v) && Accounted(v)
    requires slot.report.rowCount > 0 && |slot.staging| == slot.report.rowCount
    ensures slot.staging == RowsOfOriginal(v) && Clean(v)
  {
    CleanByCount(v);
    AsManyIsAll(slot.staging, RowsOfOriginal(v));
  }

  lemma CompletionOrder(slots: seq<Slot>, i: nat, slot: Slot)
    requires NoOvertaking(slots) && i < |slots|
    requires slots[i].report.status == Processing && slot.report.status == Completed
    ensures NoOvertaking(slots[i := slot])
  {
    var after := slots[i := slot];
    forall k, j | 0 <= k < j < |after| && after[j].report.status != Pending
      ensures !Open(after[k])
    {
      assert slots[j].report.status != Pending && !Open(slots[k]);
    }
  }

  lemma CompletedKeeps(slots: seq<Slot>, i: nat, slot: Slot, originals: seq<Verdict>)
    requires SlotsInv(slots, originals) && i < |slots| && slots[i].report.status == Processing
    requires slot.report.status == Completed && SlotInv(slot, originals[i])
    ensures SlotsInv(slots[i := slot], originals)
  {
    CompletionOrder(slots, i, slot);
  }

  lemma CompletedSlotInv(slot: Slot, v: Verdict, c: Counters)
    requires SlotInv(slot, v) && Clean(v) && slot.report.rowCount > 0
    ensures SlotInv(CompletedSlot(slot, c), v)
  {
  }

  lemma ApplyKeeps(db: Db, i: nat, choices: Choices, originals: seq<Verdict>)
    requires DbInv(db, originals) && i < |db.slots|
    requires CanChoose(db.tables, db.slots[i].staging, choices)
    requires ApplyReport(db, i, choices).ApplyCommitted?
    ensures DbInv(ApplyReport(db, i, choices).db, originals)
  {
    var slot := db.slots[i];
    CountingIsSound(slot, originals[i]);
    ApplyKeepsTablesValid(db.tables, slot.staging, choices);
    var done := ApplyStock(db.tables, slot.staging, choices);
    CompletedSlotInv(slot, originals[i], done.counters);
    CompletedKeeps(db.slots, i, CompletedSlot(slot, done.counters), originals);
  }

  lemma {:induction false} PartOfBatch(rows: seq<ValidatedRow>, whole: Staging)
    requires BatchOf(StagingBatch(rows), whole)
    ensures PartOf(ByLine(rows), whole)
  {
    if rows != [] {
      var init := rows[..|rows| - 1];
      assert forall i :: 0 <= i < |init| ==> init[i] == rows[i];
      PartOfBatch(init, whole);
    }
  }

  lemma {:induction false} BatchesOf(writes: seq<Write>, whole: Staging)
    requires forall i :: 0 <= i < |RowsIn(writes)| ==>
               RowsIn(writes)[i].line in whole && whole[RowsIn(writes)[i].line] == RowsIn(writes)[i]
    ensures forall k :: 0 <= k < |writes| ==> BatchOf(writes[k], whole)
  {
    if writes != [] {
      var init, last := writes[..|writes| - 1], writes[|writes| - 1];
      forall i | 0 <= i < |RowsIn(init)|
        ensures RowsIn(init)[i].line in whole && whole[RowsIn(init)[i].line] == RowsIn(init)[i]
      {
        assert RowsIn(init)[i] == RowsIn(writes)[i];
      }
      BatchesOf(init, whole);
      forall i | last.StagingBatch? && 0 <= i < |last.rows|
        ensures last.rows[i].line in whole && whole[last.rows[i].line] == last.rows[i]
      {
        assert last.rows[i] == RowsIn(writes)[|RowsIn(init)| + i];
      }
      forall k | 0 <= k < |writes|
        ensures BatchOf(writes[k], whole)
      {
        assert k < |init| ==> writes[k] == init[k];
      }
    }
  }

  lemma StartInv(i: nat, originals: seq<Verdict>, batchSize: nat)
    requires i < |originals| && batchSize >= 1 && Accounted(originals[i])
    ensures StageInv(StartOf(i, originals[i], batchSize), originals)
  {
    var v := originals[i];
    var rows := RowsOf(v.events);
    WritesComplete(v, batchSize);
    CleanByCount(originals[i]);
    ByLineHolds(rows);
    BatchesOf(WritesOf(v, batchSize), ByLine(rows));
  }

  lemma BatchKeeps(slot: Slot, w: Write, v: Verdict)
    requires SlotInv(slot, v) && BatchOf(w, RowsOfOriginal(v)) && StoreBatch(slot, w).Stored?
    ensures SlotInv(StoreBatch(slot, w).slot, v)
  {
    if w.StagingBatch? {
      PartOfBatch(w.rows, RowsOfOriginal(v));
    }
  }

  lemma SlotChangesQuiet(slot: Slot, v: Verdict, w: Write, code: IssueCode, errorCount: nat)
    requires SlotInv(slot, v)
    ensures Quiet(slot, FailedSlot(slot, code)) && SlotInv(FailedSlot(slot, code), v)
    ensures Quiet(slot, ValidationFailedSlot(slot, v.rowCount, errorCount))
    ensures SlotInv(ValidationFailedSlot(slot, v.rowCount, errorCount), v)
    ensures Quiet(slot, ValidatedSlot(slot, v.rowCount)) && SlotInv(ValidatedSlot(slot, v.rowCount), v)
    ensures Quiet(slot, StoreDuplicates(slot)) && SlotInv(StoreDuplicates(slot), v)
    ensures StoreBatch(slot, w).Stored? ==> Quiet(slot, StoreBatch(slot, w).slot)
  {
  }

  lemma StreamAdvances(i: nat, todo: seq<Write>, originals: seq<Verdict>, raised: bool)
    requires StageInv(Validating(i, todo), originals) && todo != []
    ensures BatchOf(todo[0], RowsOfOriginal(originals[i]))
    ensures StageInv(Streaming(i, todo[1..], raised), originals)
  {
    var whole := RowsOfOriginal(originals[i]);
    forall k | 0 <= k < |todo[1..]|
      ensures BatchOf(todo[1..][k], whole)
    {
      assert todo[1..][k] == todo[k + 1];
    }
  }

  lemma StreamKeeps(db: Db, i: nat, todo: seq<Write>, originals: seq<Verdict>, batchSize: nat, choices: Choices)
    requires DbInv(db, originals) && StageInv(Validating(i, todo), originals)
    ensures var (after, next) := Transact(db, Validating(i, todo), originals, batchSize, choices);
            DbInv(after, originals) && StageInv(next, originals)
  {
    if todo != [] && StoreBatch(db.slots[i], todo[0]).Stored? {
      StreamAdvances(i, todo, originals, originals[i].raised);
      var slot := StoreBatch(db.slots[i], todo[0]).slot;
      BatchKeeps(db.slots[i], todo[0], originals[i]);
      SlotChangesQuiet(db.slots[i], originals[i], todo[0], ApplyError, 0);
      QuietKeeps(db, i, slot, originals);
    }
  }

  lemma ValidationFailureKeeps(db: Db, i: nat, errorCount: nat, originals: seq<Verdict>)
    requires DbInv(db, originals) && i < |originals|
    ensures DbInv(Put(db, i, ValidationFailedSlot(db.slots[i], originals[i].rowCount, errorCount)), originals)
  {
    SlotChangesQuiet(db.slots[i], originals[i], ErrorBatch([]), ApplyError, errorCount);
    QuietKeeps(db, i, ValidationFailedSlot(db.slots[i], originals[i].rowCount, errorCount), originals);
  }

  lemma ValidatedKeeps(db: Db, i: nat, originals: seq<Verdict>)
    requires DbInv(db, originals) && i < |originals|
    ensures DbInv(Put(db, i, ValidatedSlot(db.slots[i], originals[i].rowCount)), originals)
  {
    SlotChangesQuiet(db.slots[i], originals[i], ErrorBatch([]), ApplyError, 0);
    QuietKeeps(db, i, ValidatedSlot(db.slots[i], originals[i].rowCount), originals);
  }

  lemma DecisionKeeps(db: Db, i: nat, errorCount: nat, originals: seq<Verdict>, batchSize: nat, choices: Choices)
    requires DbInv(db, originals) && i < |originals|
    ensures var (after, next) := Transact(db, Deciding(i, errorCount), originals, batchSize, choices);
            DbInv(after, originals) && StageInv(next, originals)
  {
    var v := originals[i];
    if errorCount > 0 {
      ValidationFailureKeeps(db, i, errorCount, originals);
    } else if v.reachedEof && v.rowCount > 0 {
      ValidatedKeeps(db, i, originals);
    }
  }

  lemma FailureKeeps(db: Db, i: nat, code: IssueCode, originals: seq<Verdict>)
    requires DbInv(db, originals) && i < |originals|
    ensures DbInv(Put(db, i, FailedSlot(db.slots[i], code)), originals)
  {
    SlotChangesQuiet(db.slots[i], originals[i], ErrorBatch([]), code, 0);
    QuietKeeps(db, i, FailedSlot(db.slots[i], code), originals);
  }

  /** The transaction and the worker's new place keep the invariant. */
  ghost predicate Keeps(result: (Db, Stage), originals: seq<Verdict>) {
    DbInv(result.0, originals) && StageInv(result.1, originals)
  }

  lemma ClaimTransactKeeps(db: Db, originals: seq<Verdict>, batchSize: nat, choices: Choices)
    requires DbInv(db, originals) && batchSize >= 1
    ensures Keeps(Transact(db, Holding, originals, batchSize, choices), originals)
  {
    if ClaimNext(db.slots).ForValidation? {
      ClaimKeeps(db, ClaimNext(db.slots).rid, originals);
      StartInv(ClaimNext(db.slots).rid, originals, batchSize);
    }
  }

  lemma ApplyTransactKeeps(db: Db, i: nat, originals: seq<Verdict>, batchSize: nat, choices: Choices)
    requires DbInv(db, originals) && CanTransact(db, Applying(i), originals, choices)
    ensures Keeps(Transact(db, Applying(i), originals, batchSize, choices), originals)
  {
    var result := Transact(db, Applying(i), originals, batchSize, choices);
    ApplyTransacts(db, i, originals, batchSize, choices);
    if ApplyReport(db, i, choices).ApplyCommitted? {
      ApplyKeeps(db, i, choices, originals);
      KeptBy(result, ApplyReport(db, i, choices).db, Done, originals);
    } else {
      KeptBy(result, db, ApplyRaisedFor(i), originals);
    }
  }

  lemma ApplyShape(db: Db, i: nat, choices: Choices) returns (c: Counters)
    requires i < |db.slots| && CanChoose(db.tables, db.slots[i].staging, choices)
    requires ApplyReport(db, i, choices).ApplyCommitted?
    ensures ApplyReport(db, i, choices).db.slots == db.slots[i := CompletedSlot(db.slots[i], c)]
  {
    c := ApplyStock(db.tables, db.slots[i].staging, choices).counters;
  }

  lemma ApplyTransacts(db: Db, i: nat, originals: seq<Verdict>, batchSize: nat, choices: Choices)
    requires CanTransact(db, Applying(i), originals, choices)
    ensures Transact(db, Applying(i), originals, batchSize, choices) ==
            if ApplyReport(db, i, choices).ApplyCommitted? then (ApplyReport(db, i, choices).db, Done)
            else (db, ApplyRaisedFor(i))
  {
  }

  lemma KeptBy(result: (Db, Stage), db: Db, next: Stage, originals: seq<Verdict>)
    requires result == (db, next) && DbInv(db, originals) && StageInv(next, originals)
    ensures Keeps(result, originals)
  {
  }

  lemma DuplicatesKeep(db: Db, i: nat, originals: seq<Verdict>)
    requires DbInv(db, originals) && i < |originals|
    ensures DbInv(Put(db, i, StoreDuplicates(db.slots[i])), originals)
  {
    SlotChangesQuiet(db.slots[i], originals[i], ErrorBatch([]), ApplyError, 0);
    QuietKeeps(db, i, StoreDuplicates(db.slots[i]), originals);
  }

  lemma TransactKeeps(db: Db, stage: Stage, originals: seq<Verdict>, batchSize: nat, choices: Choices)
    requires DbInv(db, originals) && StageInv(stage, originals) && batchSize >= 1
    requires CanTransact(db, stage, originals, choices)
    ensures Keeps(Transact(db, stage, originals, batchSize, choices), originals)
  {
    match stage
    case Holding => ClaimTransactKeeps(db, originals, batchSize, choices);
    case Validating(i, todo) => StreamKeeps(db, i, todo, originals, batchSize, choices);
    case CheckingDuplicates(i) => DuplicatesKeep(db, i, originals);
    case CountingErrors(i) =>
    case Deciding(i, errorCount) => DecisionKeeps(db, i, errorCount, originals, batchSize, choices);
    case Applying(i) => ApplyTransactKeeps(db, i, originals, batchSize, choices);
    case ValidationRaised(i) => FailureKeeps(db, i, ProcessingError, originals);
    case ApplyRaisedFor(i) => FailureKeeps(db, i, ApplyError, originals);
  }
}
