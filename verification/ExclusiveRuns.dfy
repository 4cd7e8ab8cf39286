/** Runs in which only the lock holder commits, told of its commits or not. */
module ExclusiveRuns {
  import opened Common
  import opened MapFolds
  import opened CsvValidation
  import opened CsvAccounting
  import opened Batches
  import opened DuplicateRows
  import opened SnapshotModel
  import opened StockTables
  import opened ReportStore
  import opened WorkerProtocol
  import opened WorkerSafety
  import opened GuardedClaims

  predicate Exclusive(s: State, a: Action) {
    a.Commit? ==> s.holder == Some(a.w)
  }

  ghost predicate IsExclusiveRun(states: seq<State>, actions: seq<Action>, batchSize: nat) {
    && IsRun(states, actions, batchSize)
    && forall k :: 0 <= k < |actions| ==> Exclusive(states[k], actions[k])
  }

  /** Every record is valid and no pair is reported twice. */
  ghost predicate ValidOriginal(v: Verdict) {
    Clean(v) && UniquePairs(RowsOfOriginal(v))
  }

  /** A validated slot that waits for its apply. */
  ghost predicate Validated(slot: Slot, v: Verdict) {
    && Clean(v) && slot.report.rowCount == v.rowCount > 0
    && slot.errors == [] && slot.staging == RowsOfOriginal(v) && UniquePairs(slot.staging)
  }

  /** The errors that a validation to its end stores: those of the records, then one for
      each repeated pair. */
  ghost function ErrorsDeserved(v: Verdict): seq<Issue> {
    var rows := RowsOfOriginal(v);
    IssuesOf(v.events) + DuplicateIssues(rows, Bound(rows))
  }

  /** What a failure by validation has stored; a later mark only adds an error. */
  ghost predicate FailedFor(slot: Slot, v: Verdict) {
    && slot.report.rowCount == v.rowCount
    && slot.report.errorCount == |ErrorsDeserved(v)| && ErrorsDeserved(v) <= slot.errors
  }

  /** The stored facts about one report between two transactions. */
  ghost predicate SlotOk(slot: Slot, v: Verdict) {
    match slot.report.status
    case Pending => slot == NEW_REPORT
    case Completed => slot.staging == map[] && slot.report.errorCount == 0 && ValidOriginal(v)
    case Failed =>
      && slot.staging == map[] && slot.errors != [] && slot.report.errorCount >= 1
      && (slot.report.failure == ValidationFailure ==> FailedFor(slot, v))
    case Processing => slot.report.errorCount == 0 && (slot.report.rowCount == 0 || Validated(slot, v))
  }

  ghost predicate SlotsOk(slots: seq<Slot>, originals: seq<Verdict>) {
    && |slots| == |originals|
    && (forall i :: 0 <= i < |originals| ==> Accounted(originals[i]))
    && forall i :: 0 <= i < |slots| ==> SlotOk(slots[i], originals[i])
  }

  predicate Unvalidated(slot: Slot) {
    slot.report.status == Processing && slot.report.rowCount == 0
  }

  /** All of the stream but the batches `todo` has been stored. */
  predicate StoredUpTo(slot: Slot, writes: seq<Write>, todo: seq<Write>) {
    && |todo| <= |writes| && todo == writes[|writes| - |todo|..]
    && slot.staging == ByLine(RowsIn(writes[..|writes| - |todo|]))
    && slot.errors == IssuesIn(writes[..|writes| - |todo|])
  }

  predicate StreamStored(slot: Slot, v: Verdict) {
    !v.raised && slot.staging == RowsOfOriginal(v) && slot.errors == IssuesOf(v.events)
  }

  ghost predicate DuplicatesStored(slot: Slot, v: Verdict) {
    && !v.raised && slot.staging == RowsOfOriginal(v)
    && slot.errors == IssuesOf(v.events) + DuplicateIssues(slot.staging, Bound(slot.staging))
  }

  /** What the lock holder's position says about its report. */
  ghost predicate HolderOk(stage: Stage, slots: seq<Slot>, originals: seq<Verdict>, batchSize: nat) {
    |slots| == |originals| && (HasReport(stage) ==> stage.rid < |slots|) &&
    match stage
    case Validating(i, todo) => Unvalidated(slots[i]) && StoredUpTo(slots[i], WritesOf(originals[i], batchSize), todo)
    case CheckingDuplicates(i) => Unvalidated(slots[i]) && StreamStored(slots[i], originals[i])
    case CountingErrors(i) => Unvalidated(slots[i]) && DuplicatesStored(slots[i], originals[i])
    case Deciding(i, n) => Unvalidated(slots[i]) && DuplicatesStored(slots[i], originals[i]) && n == |slots[i].errors|
    case Applying(i) => Ready(slots[i])
    case ValidationRaised(i) => slots[i].report.status != Pending
    case ApplyRaisedFor(i) => slots[i].report.status != Pending
    case _ => true
  }

  ghost predicate ExclusiveInv(s: State, batchSize: nat) {
    && SlotsOk(s.db.slots, s.originals)
    && (s.holder.Some? ==>
          s.holder.value < |s.workers| && HolderOk(s.workers[s.holder.value].stage, s.db.slots, s.originals, batchSize))
  }

  // ---------------------------------------------------------------------
  // The stream
  // ---------------------------------------------------------------------

  lemma {:induction false} ByLineAppend(a: seq<ValidatedRow>, b: seq<ValidatedRow>)
    ensures ByLine(a + b) == ByLine(a) + ByLine(b)
  {
    if b == [] {
      assert a + b == a;
    } else {
      assert (a + b)[..|a + b| - 1] == a + b[..|b| - 1];
      ByLineAppend(a, b[..|b| - 1]);
    }
  }

  lemma NextWrite(writes: seq<Write>, todo: seq<Write>)
    requires |todo| <= |writes| && todo == writes[|writes| - |todo|..] && todo != []
    ensures var n := |writes| - |todo|;
            && writes[..n + 1] == writes[..n] + [todo[0]] && writes[n + 1..] == todo[1..]
  {
    var n := |writes| - |todo|;
    assert writes[n] == todo[0];
  }

  lemma StoreNextRows(slot: Slot, before: seq<Write>, rows: seq<ValidatedRow>)
    requires slot.staging == ByLine(RowsIn(before)) && slot.errors == IssuesIn(before)
    ensures slot.staging + ByLine(rows) == ByLine(RowsIn(before + [StagingBatch(rows)]))
    ensures slot.errors == IssuesIn(before + [StagingBatch(rows)])
  {
    WrittenSnoc(before, StagingBatch(rows));
    ByLineAppend(RowsIn(before), rows);
    assert IssuesIn(before) + [] == IssuesIn(before);
  }

  lemma StoreNextIssues(slot: Slot, before: seq<Write>, issues: seq<Issue>)
    requires slot.staging == ByLine(RowsIn(before)) && slot.errors == IssuesIn(before)
    ensures slot.staging == ByLine(RowsIn(before + [ErrorBatch(issues)]))
    ensures slot.errors + issues == IssuesIn(before + [ErrorBatch(issues)])
  {
    WrittenSnoc(before, ErrorBatch(issues));
    assert RowsIn(before) + [] == RowsIn(before);
  }

  /** Storing the next batch. */
  lemma StoreNext(slot: Slot, writes: seq<Write>, todo: seq<Write>)
    requires StoredUpTo(slot, writes, todo) && todo != [] && StoreBatch(slot, todo[0]).Stored?
    ensures StoredUpTo(StoreBatch(slot, todo[0]).slot, writes, todo[1..])
  {
    NextWrite(writes, todo);
    match todo[0]
    case StagingBatch(rows) => StoreNextRows(slot, writes[..|writes| - |todo|], rows);
    case ErrorBatch(issues) => StoreNextIssues(slot, writes[..|writes| - |todo|], issues);
  }

  lemma AllStored(slot: Slot, v: Verdict, batchSize: nat)
    requires batchSize >= 1 && !v.raised && StoredUpTo(slot, WritesOf(v, batchSize), [])
    ensures StreamStored(slot, v)
  {
    var writes := WritesOf(v, batchSize);
    assert writes[..|writes|] == writes;
    WritesComplete(v, batchSize);
  }

  /** Where the stream stands after `todo` was set. */
  lemma StreamingOk(i: nat, todo: seq<Write>, slots: seq<Slot>, originals: seq<Verdict>, batchSize: nat)
    requires batchSize >= 1 && i < |slots| == |originals| && Unvalidated(slots[i])
    requires StoredUpTo(slots[i], WritesOf(originals[i], batchSize), todo)
    ensures HolderOk(Streaming(i, todo, originals[i].raised), slots, originals, batchSize)
  {
    if todo == [] && !originals[i].raised {
      AllStored(slots[i], originals[i], batchSize);
    }
  }

  lemma RestartedStart(slot: Slot, v: Verdict, batchSize: nat)
    ensures StoredUpTo(Restarted(slot), WritesOf(v, batchSize), WritesOf(v, batchSize))
    ensures Unvalidated(Restarted(slot)) && SlotOk(Restarted(slot), v)
  {
    var writes := WritesOf(v, batchSize);
    assert writes[0..] == writes && writes[..0] == [];
  }

  // ---------------------------------------------------------------------
  // The holder's transactions
  // ---------------------------------------------------------------------

  ghost predicate TransactOk(after: (Db, Stage), originals: seq<Verdict>, batchSize: nat) {
    SlotsOk(after.0.slots, originals) && HolderOk(after.1, after.0.slots, originals, batchSize)
  }

  lemma ClaimOk(db: Db, originals: seq<Verdict>, batchSize: nat, choices: Choices)
    requires SlotsOk(db.slots, originals) && batchSize >= 1
    ensures TransactOk(Transact(db, Holding, originals, batchSize, choices), originals, batchSize)
  {
    if ClaimNext(db.slots).ForValidation? {
      var i := ClaimNext(db.slots).rid;
      var slots := db.slots[i := Restarted(db.slots[i])];
      RestartedStart(db.slots[i], originals[i], batchSize);
      StreamingOk(i, WritesOf(originals[i], batchSize), slots, originals, batchSize);
    }
  }

  lemma BatchStored(slots: seq<Slot>, i: nat, todo: seq<Write>, originals: seq<Verdict>, batchSize: nat)
    requires SlotsOk(slots, originals) && batchSize >= 1 && todo != []
    requires HolderOk(Validating(i, todo), slots, originals, batchSize) && StoreBatch(slots[i], todo[0]).Stored?
    ensures var after := slots[i := StoreBatch(slots[i], todo[0]).slot];
            && SlotsOk(after, originals)
            && HolderOk(Streaming(i, todo[1..], originals[i].raised), after, originals, batchSize)
  {
    var slot := StoreBatch(slots[i], todo[0]).slot;
    StoreNext(slots[i], WritesOf(originals[i], batchSize), todo);
    SlotReplaced(slots, i, slot, originals);
    StreamingOk(i, todo[1..], slots[i := slot], originals, batchSize);
  }

  lemma BatchOk(db: Db, i: nat, todo: seq<Write>, originals: seq<Verdict>, batchSize: nat, choices: Choices)
    requires SlotsOk(db.slots, originals) && batchSize >= 1
    requires HolderOk(Validating(i, todo), db.slots, originals, batchSize)
    ensures TransactOk(Transact(db, Validating(i, todo), originals, batchSize, choices), originals, batchSize)
  {
    if todo == [] {
      StreamingOk(i, [], db.slots, originals, batchSize);
    } else if StoreBatch(db.slots[i], todo[0]).Stored? {
      BatchStored(db.slots, i, todo, originals, batchSize);
    }
  }

  /** No error is stored just when the original is clean and its pairs are unique. */
  lemma NoErrorIffValid(slot: Slot, v: Verdict)
    requires DuplicatesStored(slot, v)
    ensures slot.errors == [] <==> Clean(v) && UniquePairs(slot.staging)
  {
    OneIssuePerDuplicate(slot.staging);
  }

  /** The validator never ends without an error and without a complete stream. */
  lemma DecisionNeverRaises(slot: Slot, v: Verdict)
    requires Accounted(v) && DuplicatesStored(slot, v) && slot.errors == []
    ensures v.reachedEof && v.rowCount > 0
  {
    NoErrorIffValid(slot, v);
    CleanByCount(v);
  }

  lemma DecisionOk(db: Db, i: nat, n: nat, originals: seq<Verdict>, batchSize: nat, choices: Choices)
    requires SlotsOk(db.slots, originals) && HolderOk(Deciding(i, n), db.slots, originals, batchSize)
    ensures TransactOk(Transact(db, Deciding(i, n), originals, batchSize, choices), originals, batchSize)
    ensures Transact(db, Deciding(i, n), originals, batchSize, choices).1.Done?
  {
    var slot, v := db.slots[i], originals[i];
    NoErrorIffValid(slot, v);
    if n == 0 {
      DecisionNeverRaises(slot, v);
      assert SlotOk(ValidatedSlot(slot, v.rowCount), v);
    } else {
      FailureDeserved(slot, v);
      assert SlotOk(ValidationFailedSlot(slot, v.rowCount, n), v);
    }
  }

  lemma FailureDeserved(slot: Slot, v: Verdict)
    requires Unvalidated(slot) && DuplicatesStored(slot, v)
    ensures FailedFor(ValidationFailedSlot(slot, v.rowCount, |slot.errors|), v)
    ensures slot.errors == ErrorsDeserved(v)
  {
  }

  /** A validated report is always applied: no statement of its apply raises. */
  lemma ApplyNeverRaises(db: Db, i: nat, choices: Choices, v: Verdict)
    requires i < |db.slots| && Ready(db.slots[i]) && SlotOk(db.slots[i], v) && ValidTables(db.tables)
    requires CanChoose(db.tables, db.slots[i].staging, choices)
    ensures ApplyReport(db, i, choices).ApplyCommitted?
  {
    ApplyIsSnapshot(db.tables, db.slots[i].staging, choices);
  }

  lemma ApplyOk(db: Db, i: nat, originals: seq<Verdict>, batchSize: nat, choices: Choices)
    requires SlotsOk(db.slots, originals) && HolderOk(Applying(i), db.slots, originals, batchSize)
    requires CanTransact(db, Applying(i), originals, choices)
    ensures TransactOk(Transact(db, Applying(i), originals, batchSize, choices), originals, batchSize)
  {
    if ApplyReport(db, i, choices).ApplyCommitted? {
      var c := ApplyShape(db, i, choices);
      CompletedOk(db.slots[i], originals[i], c);
      SlotReplaced(db.slots, i, CompletedSlot(db.slots[i], c), originals);
    }
  }

  lemma CompletedOk(slot: Slot, v: Verdict, c: Counters)
    requires Ready(slot) && SlotOk(slot, v)
    ensures SlotOk(CompletedSlot(slot, c), v)
  {
  }

  lemma SlotReplaced(slots: seq<Slot>, i: nat, slot: Slot, originals: seq<Verdict>)
    requires SlotsOk(slots, originals) && i < |slots| && SlotOk(slot, originals[i])
    ensures SlotsOk(slots[i := slot], originals)
  {
  }

  lemma MarkOk(slot: Slot, v: Verdict, code: IssueCode)
    requires SlotOk(slot, v) && slot.report.status != Pending
    ensures SlotOk(FailedSlot(slot, code), v)
  {
  }

  lemma FailureOk(db: Db, i: nat, code: IssueCode, originals: seq<Verdict>, batchSize: nat)
    requires SlotsOk(db.slots, originals) && i < |db.slots| && db.slots[i].report.status != Pending
    ensures SlotsOk(db.slots[i := FailedSlot(db.slots[i], code)], originals)
  {
    MarkOk(db.slots[i], originals[i], code);
    SlotReplaced(db.slots, i, FailedSlot(db.slots[i], code), originals);
  }

  lemma DuplicatesOk(db: Db, i: nat, originals: seq<Verdict>, batchSize: nat)
    requires SlotsOk(db.slots, originals) && HolderOk(CheckingDuplicates(i), db.slots, originals, batchSize)
    ensures var after := db.slots[i := StoreDuplicates(db.slots[i])];
            SlotsOk(after, originals) && HolderOk(CountingErrors(i), after, originals, batchSize)
  {
    SlotReplaced(db.slots, i, StoreDuplicates(db.slots[i]), originals);
  }

  lemma HolderTransacts(db: Db, stage: Stage, originals: seq<Verdict>, batchSize: nat, choices: Choices)
    requires SlotsOk(db.slots, originals) && HolderOk(stage, db.slots, originals, batchSize) && batchSize >= 1
    requires CanTransact(db, stage, originals, choices)
    ensures TransactOk(Transact(db, stage, originals, batchSize, choices), originals, batchSize)
  {
    match stage
    case Holding => ClaimOk(db, originals, batchSize, choices);
    case Validating(i, todo) => BatchOk(db, i, todo, originals, batchSize, choices);
    case CheckingDuplicates(i) => DuplicatesOk(db, i, originals, batchSize);
    case CountingErrors(i) =>
    case Deciding(i, n) => DecisionOk(db, i, n, originals, batchSize, choices);
    case Applying(i) => ApplyOk(db, i, originals, batchSize, choices);
    case ValidationRaised(i) => FailureOk(db, i, ProcessingError, originals, batchSize);
    case ApplyRaisedFor(i) => FailureOk(db, i, ApplyError, originals, batchSize);
  }

  // ---------------------------------------------------------------------
  // Runs
  // ---------------------------------------------------------------------

  lemma ExceptionOk(stage: Stage, slots: seq<Slot>, originals: seq<Verdict>, batchSize: nat)
    requires HolderOk(stage, slots, originals, batchSize)
    ensures HolderOk(OnException(stage), slots, originals, batchSize)
  {
  }

  lemma HolderNotPending(stage: Stage, slots: seq<Slot>, originals: seq<Verdict>, batchSize: nat)
    requires HolderOk(stage, slots, originals, batchSize) && HasReport(stage)
    ensures slots[stage.rid].report.status != Pending
  {
  }

  /** A commit of which the worker is not told. */
  lemma UnacknowledgedOk(db: Db, stage: Stage, originals: seq<Verdict>, batchSize: nat, choices: Choices)
    requires HolderOk(stage, db.slots, originals, batchSize) && CanTransact(db, stage, originals, choices)
    ensures var after := Transact(db, stage, originals, batchSize, choices).0;
            |after.slots| == |originals| ==> HolderOk(OnException(stage), after.slots, originals, batchSize)
  {
    if HasReport(stage) {
      HolderNotPending(stage, db.slots, originals, batchSize);
      TransactMonotone(db, stage, originals, batchSize, choices, stage.rid);
    }
  }

  lemma RegisterOk(stage: Stage, slots: seq<Slot>, originals: seq<Verdict>, batchSize: nat, v: Verdict)
    requires HolderOk(stage, slots, originals, batchSize)
    ensures HolderOk(stage, slots + [NEW_REPORT], originals + [v], batchSize)
  {
    if HasReport(stage) {
      assert (slots + [NEW_REPORT])[stage.rid] == slots[stage.rid];
      assert (originals + [v])[stage.rid] == originals[stage.rid];
    }
  }

  lemma ExclusiveStep(s: State, a: Action, batchSize: nat)
    requires ExclusiveInv(s, batchSize) && Enabled(s, a) && Exclusive(s, a) && batchSize >= 1
    ensures ExclusiveInv(Step(s, a, batchSize), batchSize)
  {
    match a
    case Register(v) =>
      if s.holder.Some? {
        RegisterOk(s.workers[s.holder.value].stage, s.db.slots, s.originals, batchSize, v);
      }
    case Commit(w, choices, _) =>
      HolderTransacts(s.db, s.workers[w].stage, s.originals, batchSize, choices);
      UnacknowledgedOk(s.db, s.workers[w].stage, s.originals, batchSize, choices);
    case Fault(w) =>
      if s.holder == Some(w) {
        ExceptionOk(s.workers[w].stage, s.db.slots, s.originals, batchSize);
      }
    case _ =>
  }

  lemma {:induction false} ExclusiveRunKeeps(states: seq<State>, actions: seq<Action>, batchSize: nat, n: nat)
    requires IsExclusiveRun(states, actions, batchSize) && batchSize >= 1 && n < |states|
    ensures ExclusiveInv(states[n], batchSize)
    decreases n
  {
    if n > 0 {
      ExclusiveRunKeeps(states, actions, batchSize, n - 1);
      RunStep(states, actions, batchSize, n - 1);
      ExclusiveStep(states[n - 1], actions[n - 1], batchSize);
    }
  }

  /** When only the lock holder commits, closed reports have no staging, a failed one
      has stored errors, a completed one a valid original, and one taken for validated
      the unique pairs of its original. */
  lemma StoredFactsUnderLock(states: seq<State>, actions: seq<Action>, batchSize: nat, n: nat, i: nat)
    requires IsExclusiveRun(states, actions, batchSize) && batchSize >= 1 && n < |states|
    requires i < |states[n].db.slots| == |states[n].originals|
    ensures var slot := states[n].db.slots[i];
            && (!Open(slot) ==> slot.staging == map[])
            && (slot.report.status == Status.Failed ==> slot.errors != [])
            && (slot.report.status == Completed ==> ValidOriginal(states[n].originals[i]))
            && (Ready(slot) ==> |slot.staging| == slot.report.rowCount && UniquePairs(slot.staging))
  {
    ExclusiveRunKeeps(states, actions, batchSize, n);
    assert SlotOk(states[n].db.slots[i], states[n].originals[i]);
  }

  /** A report that failed by validation has as row count the number of counted records
      of its original, and as errors those of its records in order, followed by exactly
      one for each row that repeats a pair; that many are counted. What may come after
      them was marked after the close. */
  lemma ErrorsOfFailure(states: seq<State>, actions: seq<Action>, batchSize: nat, n: nat, i: nat)
    returns (repeats: seq<Issue>)
    requires IsExclusiveRun(states, actions, batchSize) && batchSize >= 1 && n < |states|
    requires i < |states[n].db.slots| == |states[n].originals|
    requires states[n].db.slots[i].report.status == Status.Failed
    requires states[n].db.slots[i].report.failure == ValidationFailure
    ensures var slot, v := states[n].db.slots[i], states[n].originals[i];
            && slot.report.rowCount == v.rowCount
            && RepeatsReported(repeats, RowsOfOriginal(v))
            && IssuesOf(v.events) + repeats <= slot.errors
            && slot.report.errorCount == |IssuesOf(v.events)| + |repeats|
            && (MarkCount(states, actions, i, n) == 0 ==> slot.errors == IssuesOf(v.events) + repeats)
  {
    var v := states[n].originals[i];
    ExclusiveRunKeeps(states, actions, batchSize, n);
    assert SlotOk(states[n].db.slots[i], v);
    repeats := DuplicateIssues(RowsOfOriginal(v), Bound(RowsOfOriginal(v)));
    DuplicateIssuesExact(RowsOfOriginal(v));
    ErrorsExact(states, actions, batchSize, i, n);
  }

  /** Such a run makes its claims with the lock. */
  lemma ExclusiveIsGuarded(states: seq<State>, actions: seq<Action>, batchSize: nat)
    requires IsExclusiveRun(states, actions, batchSize)
    ensures IsGuardedRun(states, actions, batchSize)
  {
    forall k | 0 <= k < |actions|
      ensures Guarded(states[k], actions[k])
    {
      assert Exclusive(states[k], actions[k]);
    }
  }

  // ---------------------------------------------------------------------
  // Counted and stored errors
  // ---------------------------------------------------------------------

  /** A failure is marked on report `i` after it has been closed. */
  ghost predicate MarksClosed(s: State, a: Action, i: nat) {
    && a.Commit? && a.w < |s.workers| && i < |s.db.slots| && !Open(s.db.slots[i])
    && (s.workers[a.w].stage == ValidationRaised(i) || s.workers[a.w].stage == ApplyRaisedFor(i))
  }

  ghost function MarkCount(states: seq<State>, actions: seq<Action>, i: nat, n: nat): nat
    requires n <= |actions| && |states| == |actions| + 1
  {
    if n == 0 then 0
    else MarkCount(states, actions, i, n - 1) + if MarksClosed(states[n - 1], actions[n - 1], i) then 1 else 0
  }

  ghost predicate IsClosed(s: State, i: nat) {
    i < |s.db.slots| && !Open(s.db.slots[i])
  }

  /** What a transaction of the holder does to the errors of report `i` if it is or
      gets closed. */
  ghost predicate ErrorsEffect(before: Slot, after: Slot, marked: bool) {
    if Open(before) then !Open(after) ==> after.report.errorCount == |after.errors|
    else after.report == before.report && |after.errors| == |before.errors| + if marked then 1 else 0
  }

  lemma PutErrors(db: Db, j: nat, slot: Slot, i: nat, marked: bool)
    requires i < |db.slots| && j < |db.slots|
    requires i == j ==> ErrorsEffect(db.slots[j], slot, marked)
    ensures ErrorsEffect(db.slots[i], Put(db, j, slot).slots[i], marked && i == j)
  {
  }

  lemma ApplyErrors(db: Db, j: nat, originals: seq<Verdict>, batchSize: nat, choices: Choices, i: nat)
    requires SlotsOk(db.slots, originals) && HolderOk(Applying(j), db.slots, originals, batchSize) && i < |db.slots|
    requires CanTransact(db, Applying(j), originals, choices)
    ensures var after := Transact(db, Applying(j), originals, batchSize, choices).0;
            i < |after.slots| && ErrorsEffect(db.slots[i], after.slots[i], false)
  {
    ApplyTransacts(db, j, originals, batchSize, choices);
    if ApplyReport(db, j, choices).ApplyCommitted? {
      var c := ApplyShape(db, j, choices);
      PutErrors(db, j, CompletedSlot(db.slots[j], c), i, false);
    }
  }

  lemma StreamErrors(db: Db, j: nat, todo: seq<Write>, originals: seq<Verdict>, batchSize: nat, choices: Choices,
                     i: nat)
    requires SlotsOk(db.slots, originals) && i < |db.slots|
    requires HolderOk(Validating(j, todo), db.slots, originals, batchSize)
    ensures var after := Transact(db, Validating(j, todo), originals, batchSize, choices).0;
            i < |after.slots| && ErrorsEffect(db.slots[i], after.slots[i], false)
  {
    if todo != [] && StoreBatch(db.slots[j], todo[0]).Stored? {
      PutErrors(db, j, StoreBatch(db.slots[j], todo[0]).slot, i, false);
    }
  }

  lemma DecisionErrors(db: Db, j: nat, n: nat, originals: seq<Verdict>, batchSize: nat, choices: Choices, i: nat)
    requires SlotsOk(db.slots, originals) && i < |db.slots|
    requires HolderOk(Deciding(j, n), db.slots, originals, batchSize)
    ensures var after := Transact(db, Deciding(j, n), originals, batchSize, choices).0;
            i < |after.slots| && ErrorsEffect(db.slots[i], after.slots[i], false)
  {
    if n > 0 {
      PutErrors(db, j, ValidationFailedSlot(db.slots[j], originals[j].rowCount, n), i, false);
    } else {
      PutErrors(db, j, ValidatedSlot(db.slots[j], originals[j].rowCount), i, false);
    }
  }

  lemma ClaimErrors(db: Db, originals: seq<Verdict>, batchSize: nat, choices: Choices, i: nat)
    requires |db.slots| == |originals| && i < |db.slots|
    ensures var after := Transact(db, Holding, originals, batchSize, choices).0;
            i < |after.slots| && ErrorsEffect(db.slots[i], after.slots[i], false)
  {
    if ClaimNext(db.slots).ForValidation? {
      var j := ClaimNext(db.slots).rid;
      PutErrors(db, j, Restarted(db.slots[j]), i, false);
    }
  }

  lemma MarkErrors(db: Db, j: nat, code: IssueCode, i: nat)
    requires i < |db.slots| && j < |db.slots| && db.slots[j].report.status != Pending
    ensures ErrorsEffect(db.slots[i], Put(db, j, FailedSlot(db.slots[j], code)).slots[i], i == j)
  {
    PutErrors(db, j, FailedSlot(db.slots[j], code), i, true);
  }

  lemma TransactErrors(db: Db, stage: Stage, originals: seq<Verdict>, batchSize: nat, choices: Choices, i: nat)
    requires SlotsOk(db.slots, originals) && HolderOk(stage, db.slots, originals, batchSize) && i < |db.slots|
    requires CanTransact(db, stage, originals, choices)
    ensures var after := Transact(db, stage, originals, batchSize, choices).0;
            && i < |after.slots|
            && ErrorsEffect(db.slots[i], after.slots[i], stage == ValidationRaised(i) || stage == ApplyRaisedFor(i))
  {
    match stage
    case Holding => ClaimErrors(db, originals, batchSize, choices, i);
    case Validating(j, todo) => StreamErrors(db, j, todo, originals, batchSize, choices, i);
    case CheckingDuplicates(j) => PutErrors(db, j, StoreDuplicates(db.slots[j]), i, false);
    case CountingErrors(j) =>
    case Deciding(j, n) => DecisionErrors(db, j, n, originals, batchSize, choices, i);
    case Applying(j) => ApplyErrors(db, j, originals, batchSize, choices, i);
    case ValidationRaised(j) => MarkErrors(db, j, ProcessingError, i);
    case ApplyRaisedFor(j) => MarkErrors(db, j, ApplyError, i);
  }

  /** What a step of such a run does to the errors of a report that is closed after it. */
  ghost predicate ErrorsFollow(s: State, a: Action, next: State, i: nat) {
    IsClosed(next, i) ==>
      var after := next.db.slots[i];
      && i < |s.db.slots|
      && (Open(s.db.slots[i]) ==> after.report.errorCount == |after.errors|)
      && (!Open(s.db.slots[i]) ==>
            && after.report.errorCount == s.db.slots[i].report.errorCount
            && |after.errors| == |s.db.slots[i].errors| + if MarksClosed(s, a, i) then 1 else 0)
  }

  lemma StepErrors(s: State, a: Action, batchSize: nat, i: nat)
    requires ExclusiveInv(s, batchSize) && Enabled(s, a) && Exclusive(s, a) && batchSize >= 1
    ensures ErrorsFollow(s, a, Step(s, a, batchSize), i)
  {
    if a.Commit? {
      TransactTables(s.db, s.workers[a.w].stage, s.originals, batchSize, a.choices);
      if i < |s.db.slots| {
        TransactErrors(s.db, s.workers[a.w].stage, s.originals, batchSize, a.choices, i);
      }
    }
  }

  lemma RunErrors(states: seq<State>, actions: seq<Action>, batchSize: nat, i: nat, k: nat)
    requires IsExclusiveRun(states, actions, batchSize) && batchSize >= 1 && k < |actions|
    ensures ErrorsFollow(states[k], actions[k], states[k + 1], i)
  {
    ExclusiveRunKeeps(states, actions, batchSize, k);
    RunStep(states, actions, batchSize, k);
    StepErrors(states[k], actions[k], batchSize, i);
  }

  lemma StepCloses(s: State, a: Action, batchSize: nat, i: nat)
    requires Enabled(s, a) && IsClosed(s, i)
    ensures IsClosed(Step(s, a, batchSize), i)
  {
    ClosedIsFinal(s, a, batchSize, i);
  }

  lemma {:induction false} NoMarkWhileOpen(states: seq<State>, actions: seq<Action>, batchSize: nat, i: nat, n: nat)
    requires IsRun(states, actions, batchSize) && n <= |actions| && !IsClosed(states[n], i)
    ensures MarkCount(states, actions, i, n) == 0
    decreases n
  {
    if n > 0 {
      RunStep(states, actions, batchSize, n - 1);
      if IsClosed(states[n - 1], i) {
        StepCloses(states[n - 1], actions[n - 1], batchSize, i);
      }
      NoMarkWhileOpen(states, actions, batchSize, i, n - 1);
    }
  }

  /** A closed report stores as many errors as it counts, and one more for every
      failure that was marked after it had been closed. */
  lemma {:induction false} ErrorsExact(states: seq<State>, actions: seq<Action>, batchSize: nat, i: nat, n: nat)
    requires IsExclusiveRun(states, actions, batchSize) && batchSize >= 1 && n <= |actions| && IsClosed(states[n], i)
    ensures |states[n].db.slots[i].errors|
         == states[n].db.slots[i].report.errorCount + MarkCount(states, actions, i, n)
    decreases n
  {
    if n > 0 {
      RunErrors(states, actions, batchSize, i, n - 1);
      if IsClosed(states[n - 1], i) {
        ErrorsExact(states, actions, batchSize, i, n - 1);
      } else {
        NoMarkWhileOpen(states, actions, batchSize, i, n - 1);
      }
    }
  }

  /** The commit that closes a report other than by marking its failure. */
  ghost predicate Closes(s: State, a: Action) {
    && a.Commit? && a.w < |s.workers|
    && match s.workers[a.w].stage
       case Deciding(_, n) => n > 0
       case Applying(i) => CommitsApply(s.db, Applying(i), a.choices, i)
       case _ => false
  }

  ghost predicate ClosingsAcknowledged(states: seq<State>, actions: seq<Action>, n: nat)
    requires n <= |actions| && n < |states|
  {
    forall k :: 0 <= k < n && Closes(states[k], actions[k]) ==> actions[k].acknowledged
  }

  /** An exception is only on its way for a report that is still open. */
  ghost predicate RaisedOpen(stage: Stage, slots: seq<Slot>) {
    stage.ValidationRaised? || stage.ApplyRaisedFor? ==>
      stage.rid < |slots| && slots[stage.rid].report.status == Processing
  }

  ghost predicate HolderRaisedOpen(s: State) {
    s.holder.Some? ==> s.holder.value < |s.workers| && RaisedOpen(s.workers[s.holder.value].stage, s.db.slots)
  }

  lemma RaisedFromOpen(stage: Stage, slots: seq<Slot>, originals: seq<Verdict>, batchSize: nat)
    requires HolderOk(stage, slots, originals, batchSize) && RaisedOpen(stage, slots)
    ensures HasReport(stage) ==> slots[stage.rid].report.status == Processing
    ensures RaisedOpen(OnException(stage), slots)
  {
  }

  lemma StreamRaises(db: Db, i: nat, todo: seq<Write>, originals: seq<Verdict>, batchSize: nat, choices: Choices)
    requires HolderOk(Validating(i, todo), db.slots, originals, batchSize)
    ensures var (after, next) := Transact(db, Validating(i, todo), originals, batchSize, choices);
            RaisedOpen(next, after.slots) && RaisedOpen(ValidationRaised(i), after.slots)
  {
  }

  lemma DecisionRaises(db: Db, i: nat, n: nat, originals: seq<Verdict>, batchSize: nat, choices: Choices)
    requires SlotsOk(db.slots, originals) && HolderOk(Deciding(i, n), db.slots, originals, batchSize)
    ensures var (after, next) := Transact(db, Deciding(i, n), originals, batchSize, choices);
            RaisedOpen(next, after.slots) && (n == 0 ==> RaisedOpen(ValidationRaised(i), after.slots))
  {
    DecisionOk(db, i, n, originals, batchSize, choices);
  }

  lemma ClaimRaises(db: Db, originals: seq<Verdict>, batchSize: nat, choices: Choices)
    requires |db.slots| == |originals|
    ensures var (after, next) := Transact(db, Holding, originals, batchSize, choices);
            RaisedOpen(next, after.slots)
  {
  }

  lemma ApplyRaises(db: Db, i: nat, originals: seq<Verdict>, batchSize: nat, choices: Choices)
    requires HolderOk(Applying(i), db.slots, originals, batchSize) && CanTransact(db, Applying(i), originals, choices)
    ensures var (after, next) := Transact(db, Applying(i), originals, batchSize, choices);
            && RaisedOpen(next, after.slots)
            && (!CommitsApply(db, Applying(i), choices, i) ==> RaisedOpen(ApplyRaisedFor(i), after.slots))
  {
    ApplyTransacts(db, i, originals, batchSize, choices);
  }

  /** A transaction leaves an exception behind only for an open report, and so does
      one that does not close its report and of which the worker is not told. */
  lemma TransactRaises(db: Db, stage: Stage, originals: seq<Verdict>, batchSize: nat, choices: Choices)
    requires SlotsOk(db.slots, originals) && HolderOk(stage, db.slots, originals, batchSize)
    requires RaisedOpen(stage, db.slots) && CanTransact(db, stage, originals, choices)
    ensures var (after, next) := Transact(db, stage, originals, batchSize, choices);
            && RaisedOpen(next, after.slots)
            && (!(stage.Deciding? && stage.errorCount > 0)
                && !(stage.Applying? && CommitsApply(db, stage, choices, stage.rid)) ==>
                  RaisedOpen(OnException(stage), after.slots))
  {
    match stage
    case Holding => ClaimRaises(db, originals, batchSize, choices);
    case Validating(i, todo) => StreamRaises(db, i, todo, originals, batchSize, choices);
    case CheckingDuplicates(i) =>
    case CountingErrors(i) =>
    case Deciding(i, n) => DecisionRaises(db, i, n, originals, batchSize, choices);
    case Applying(i) => ApplyRaises(db, i, originals, batchSize, choices);
    case ValidationRaised(i) =>
    case ApplyRaisedFor(i) =>
  }

  lemma RaisedOpenStep(s: State, a: Action, batchSize: nat)
    requires ExclusiveInv(s, batchSize) && HolderRaisedOpen(s) && Enabled(s, a) && Exclusive(s, a) && batchSize >= 1
    requires Closes(s, a) ==> a.acknowledged
    ensures HolderRaisedOpen(Step(s, a, batchSize))
  {
    match a
    case Commit(w, choices, _) => TransactRaises(s.db, s.workers[w].stage, s.originals, batchSize, choices);
    case Fault(w) =>
      if s.holder == Some(w) {
        RaisedFromOpen(s.workers[w].stage, s.db.slots, s.originals, batchSize);
      }
    case _ =>
  }

  lemma {:induction false} RaisedOpenRun(states: seq<State>, actions: seq<Action>, batchSize: nat, n: nat)
    requires IsExclusiveRun(states, actions, batchSize) && batchSize >= 1 && n <= |actions|
    requires ClosingsAcknowledged(states, actions, n)
    ensures HolderRaisedOpen(states[n])
    decreases n
  {
    if n > 0 {
      RaisedOpenRun(states, actions, batchSize, n - 1);
      ExclusiveRunKeeps(states, actions, batchSize, n - 1);
      RunStep(states, actions, batchSize, n - 1);
      RaisedOpenStep(states[n - 1], actions[n - 1], batchSize);
    }
  }

  lemma {:induction false} NoMarksIfAcknowledged(states: seq<State>, actions: seq<Action>, batchSize: nat, i: nat,
                                                 n: nat)
    requires IsExclusiveRun(states, actions, batchSize) && batchSize >= 1 && n <= |actions|
    requires ClosingsAcknowledged(states, actions, n)
    ensures MarkCount(states, actions, i, n) == 0
    decreases n
  {
    if n > 0 {
      NoMarksIfAcknowledged(states, actions, batchSize, i, n - 1);
      RaisedOpenRun(states, actions, batchSize, n - 1);
      assert Exclusive(states[n - 1], actions[n - 1]);
    }
  }

  /** When the worker is told of the commits that close reports (decisions on counted
      errors and applies), a closed report counts exactly its stored errors, and a
      completed one has none. */
  lemma ErrorsCounted(states: seq<State>, actions: seq<Action>, batchSize: nat, i: nat, n: nat)
    requires IsExclusiveRun(states, actions, batchSize) && batchSize >= 1 && n <= |actions| && IsClosed(states[n], i)
    requires ClosingsAcknowledged(states, actions, n)
    ensures states[n].db.slots[i].report.errorCount == |states[n].db.slots[i].errors|
    ensures states[n].db.slots[i].report.status == Completed ==> states[n].db.slots[i].errors == []
  {
    ErrorsExact(states, actions, batchSize, i, n);
    NoMarksIfAcknowledged(states, actions, batchSize, i, n);
    ExclusiveRunKeeps(states, actions, batchSize, n);
    assert SlotOk(states[n].db.slots[i], states[n].originals[i]);
  }

  lemma MarkedAfterClose(slots: seq<Slot>, i: nat, code: IssueCode)
    requires i < |slots| && !Open(slots[i]) && slots[i].report.errorCount == |slots[i].errors|
    ensures var slot := slots[i := FailedSlot(slots[i], code)][i];
            !Open(slot) && slot.report.errorCount != |slot.errors|
  {
  }

  /** The holder checks the lock and marks the failure it thinks has happened. */
  lemma MarkSteps(s: State, w: nat, i: nat, choices: Choices, batchSize: nat)
    requires w < |s.workers| && s.holder == Some(w) && i < |s.db.slots| == |s.originals|
    requires s.workers[w].stage == ValidationRaised(i) || s.workers[w].stage == ApplyRaisedFor(i)
    requires !Open(s.db.slots[i]) && s.db.slots[i].report.errorCount == |s.db.slots[i].errors|
    ensures Enabled(s, CheckLock(w))
    ensures var checked := Step(s, CheckLock(w), batchSize);
            && Enabled(checked, Commit(w, choices, true))
            && var slots := Step(checked, Commit(w, choices, true), batchSize).db.slots;
               i < |slots| && !Open(slots[i]) && slots[i].report.errorCount != |slots[i].errors|
  {
    var code := if s.workers[w].stage.ApplyRaisedFor? then ApplyError else ProcessingError;
    MarkedAfterClose(s.db.slots, i, code);
  }

  /** The state after a closing commit of which the holder is not told. */
  ghost predicate Unaware(s: State, w: nat, i: nat) {
    && w < |s.workers| && s.holder == Some(w) && i < |s.db.slots| == |s.originals|
    && (s.workers[w].stage == ValidationRaised(i) || s.workers[w].stage == ApplyRaisedFor(i))
    && !Open(s.db.slots[i]) && s.db.slots[i].report.errorCount == |s.db.slots[i].errors|
  }

  lemma UnawareAfter(s: State, a: Action, batchSize: nat)
    requires ExclusiveInv(s, batchSize) && batchSize >= 1 && Enabled(s, a) && a.Commit? && Closes(s, a)
    requires s.holder == Some(a.w) && !a.acknowledged
    ensures Unaware(Step(s, a, batchSize), a.w, s.workers[a.w].stage.rid)
  {
    ClosedBy(s, a, batchSize);
    TransactTables(s.db, s.workers[a.w].stage, s.originals, batchSize, a.choices);
  }

  /** The condition is needed: whenever a closing commit of the holder is not
      acknowledged, its next two steps lead to a closed report with more stored errors
      than it counts. */
  lemma UnacknowledgedBreaks(s: State, a: Action, choices: Choices, batchSize: nat)
    requires ExclusiveInv(s, batchSize) && batchSize >= 1 && Enabled(s, a) && a.Commit? && Closes(s, a)
    requires s.holder == Some(a.w) && !a.acknowledged
    ensures var next, i := Step(s, a, batchSize), s.workers[a.w].stage.rid;
            && Enabled(next, CheckLock(a.w))
            && var checked := Step(next, CheckLock(a.w), batchSize);
               && Enabled(checked, Commit(a.w, choices, true))
               && var slots := Step(checked, Commit(a.w, choices, true), batchSize).db.slots;
                  i < |slots| && !Open(slots[i]) && slots[i].report.errorCount != |slots[i].errors|
  {
    UnawareAfter(s, a, batchSize);
    MarkSteps(Step(s, a, batchSize), a.w, s.workers[a.w].stage.rid, choices, batchSize);
  }

  lemma ClosedBy(s: State, a: Action, batchSize: nat)
    requires ExclusiveInv(s, batchSize) && batchSize >= 1 && Enabled(s, a) && a.Commit? && Closes(s, a)
    requires s.holder == Some(a.w)
    ensures var i := s.workers[a.w].stage.rid;
            var after := Transact(s.db, s.workers[a.w].stage, s.originals, batchSize, a.choices).0;
            && i < |after.slots| && !Open(after.slots[i])
            && after.slots[i].report.errorCount == |after.slots[i].errors|
  {
    var stage := s.workers[a.w].stage;
    TransactErrors(s.db, stage, s.originals, batchSize, a.choices, stage.rid);
    if stage.Applying? {
      ApplyTransacts(s.db, stage.rid, s.originals, batchSize, a.choices);
      var c := ApplyShape(s.db, stage.rid, a.choices);
    }
  }
}
