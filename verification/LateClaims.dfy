/** Runs that show where the promises end: late claims, an insertion order, a commit
    of which the worker is not told, and a commit after the loss of the lock. */
module LateClaims {
  import opened Common
  import opened MapFolds
  import opened CsvValidation
  import opened CsvAccounting
  import opened Batches
  import opened DuplicateRows
  import opened SnapshotModel
  import opened StockTables
  import opened ReportStore
  import opened WorkerProtocol
  import opened WorkerSafety
  import opened StockHistory
  import opened ExclusiveRuns
  import opened RunSegments

  // ---------------------------------------------------------------------
  // An original with one row, and one with a pair on two lines
  // ---------------------------------------------------------------------

  const BATCH_SIZE: nat := 2

  const FIVE: ValidatedRow := ValidatedRow(2, [65], [66], [67], [68], 5)
  const SEVEN: ValidatedRow := ValidatedRow(2, [65], [66], [67], [68], 7)
  const FIVE_AGAIN: ValidatedRow := ValidatedRow(3, [65], [66], [67], [68], 5)

  const ONCE: Verdict := Verdict([OnValidRow(FIVE)], 1, true, false)
  const TWICE: Verdict := Verdict([OnValidRow(SEVEN), OnValidRow(FIVE_AGAIN)], 2, true, false)
  const ORIGINALS: seq<Verdict> := [ONCE, TWICE]

  /** The rows and the only batch of each original. */
  const ROWS: seq<seq<ValidatedRow>> := [[FIVE], [SEVEN, FIVE_AGAIN]]
  const STAGED: seq<Staging> := [map[2 := FIVE], map[2 := SEVEN, 3 := FIVE_AGAIN]]

  function Batch(i: nat): Write
    requires i < 2
  {
    StagingBatch(ROWS[i])
  }

  lemma OnceRows()
    ensures RowsOf(ONCE.events) == ROWS[0] && IssuesOf(ONCE.events) == [] && ByLine(ROWS[0]) == STAGED[0]
  {
    assert ONCE.events[1..] == [] && RowsOf([]) == [] && IssuesOf([]) == [];
    assert [FIVE][..0] == [] && ByLine([]) == map[];
  }

  lemma TwiceRows()
    ensures RowsOf(TWICE.events) == ROWS[1] && IssuesOf(TWICE.events) == [] && ByLine(ROWS[1]) == STAGED[1]
  {
    assert TWICE.events[1..] == [OnValidRow(FIVE_AGAIN)] && TWICE.events[1..][1..] == [];
    assert RowsOf([]) == [] && IssuesOf([]) == [];
    assert [SEVEN, FIVE_AGAIN][..1] == [SEVEN] && [SEVEN][..0] == [];
    assert ByLine([SEVEN]) == map[2 := SEVEN];
  }

  lemma BothAccounted()
    ensures Accounted(ONCE) && Accounted(TWICE)
    ensures RowsOfOriginal(ONCE) == STAGED[0] && RowsOfOriginal(TWICE) == STAGED[1]
  {
    OnceRows();
    TwiceRows();
  }

  lemma OnceWrites()
    ensures WritesOf(ONCE, BATCH_SIZE) == [Batch(0)]
  {
    var one := AddRow(EMPTY, FIVE, BATCH_SIZE);
    assert one == Buffer([FIVE], [], []);
    assert ONCE.events[1..] == [];
    assert Feed(one, [], BATCH_SIZE) == one;
    assert Feed(EMPTY, ONCE.events, BATCH_SIZE) == one;
  }

  lemma TwiceWrites()
    ensures WritesOf(TWICE, BATCH_SIZE) == [Batch(1)]
  {
    var one := AddRow(EMPTY, SEVEN, BATCH_SIZE);
    assert one == Buffer([SEVEN], [], []);
    assert [SEVEN] + [FIVE_AGAIN] == [SEVEN, FIVE_AGAIN];
    var two := AddRow(one, FIVE_AGAIN, BATCH_SIZE);
    assert two == Buffer([], [], [Batch(1)]);
    assert TWICE.events[1..] == [OnValidRow(FIVE_AGAIN)] && TWICE.events[1..][1..] == [];
    assert Feed(two, [], BATCH_SIZE) == two;
    assert Feed(one, TWICE.events[1..], BATCH_SIZE) == two;
    assert Feed(EMPTY, TWICE.events, BATCH_SIZE) == two;
  }

  lemma StartsWithBatch(i: nat)
    requires i < 2
    ensures StartOf(i, ORIGINALS[i], BATCH_SIZE) == Validating(i, [Batch(i)])
  {
    OnceWrites();
    TwiceWrites();
  }

  lemma BatchInserts(i: nat)
    requires i < 2
    ensures CanInsert(map[], ROWS[i]) && ByLine(ROWS[i]) == STAGED[i]
  {
    OnceRows();
    TwiceRows();
  }

  lemma RowsStaged(i: nat)
    requires i < 2
    ensures |STAGED[i]| == ORIGINALS[i].rowCount
  {
    assert STAGED[0].Keys == {2} && STAGED[1].Keys == {2, 3};
    assert |STAGED[0]| == |STAGED[0].Keys| && |STAGED[1]| == |STAGED[1].Keys|;
  }

  lemma OncePair()
    ensures UniquePairs(STAGED[0])
  {
  }

  lemma TwicePair()
    ensures !UniquePairs(STAGED[1])
  {
    var lines := PairLines(STAGED[1]);
    assert lines[2].0 == lines[3].0;
  }

  // ---------------------------------------------------------------------
  // Steps of a run with these two originals
  // ---------------------------------------------------------------------

  ghost predicate Reached(s: State, locked: bool) {
    Reachable(s, BATCH_SIZE, locked) && s.originals == ORIGINALS && |s.db.slots| == 2
  }

  const NO_CHOICES: Choices := Choices(map[], map[], [])

  /** Report `i` and worker `w` have moved on, the worker without a new check. */
  function Moved(s: State, i: nat, slot: Slot, w: nat, stage: Stage): State
    requires i < |s.db.slots| && w < |s.workers|
  {
    WithWorker(s.(db := Put(s.db, i, slot)), w, stage, false)
  }

  ghost predicate Stands(s: State, w: nat, stage: Stage, locked: bool) {
    Reached(s, locked) && w < |s.workers| && s.workers[w].stage == stage && (locked ==> s.holder == Some(w))
  }

  lemma Acquires(s: State, w: nat, locked: bool)
    requires Reached(s, locked) && w < |s.workers| && s.workers[w].stage.Idle? && s.holder == None
    ensures Reached(WithWorker(s, w, Holding, false).(holder := Some(w)), locked)
  {
    StepReachable(s, Acquire(w), BATCH_SIZE, locked);
  }

  lemma Loses(s: State, locked: bool)
    requires Reached(s, locked) && s.holder.Some?
    ensures Reached(s.(holder := None), locked)
  {
    StepReachable(s, LoseConnection, BATCH_SIZE, locked);
  }

  lemma Checks(s: State, w: nat, stage: Stage, locked: bool)
    requires Stands(s, w, stage, locked) && HasReport(stage) && s.holder == Some(w)
    ensures Reached(WithWorker(s, w, stage, true), locked)
  {
    StepReachable(s, CheckLock(w), BATCH_SIZE, locked);
  }

  lemma Releases(s: State, w: nat, locked: bool)
    requires Stands(s, w, Done, locked) && s.holder == Some(w)
    ensures Reached(WithWorker(s, w, Idle, false).(holder := None), locked)
  {
    StepReachable(s, Release(w), BATCH_SIZE, locked);
  }

  lemma Claims(s: State, w: nat, i: nat, locked: bool)
    requires Stands(s, w, Holding, locked) && i < 2 && ClaimNext(s.db.slots) == ForValidation(i)
    ensures Reached(Moved(s, i, Restarted(s.db.slots[i]), w, Validating(i, [Batch(i)])), locked)
  {
    StartsWithBatch(i);
    StepReachable(s, Commit(w, NO_CHOICES, true), BATCH_SIZE, locked);
  }

  lemma ClaimsReady(s: State, w: nat, i: nat, locked: bool)
    requires Stands(s, w, Holding, locked) && i < 2 && ClaimNext(s.db.slots) == ForApply(i)
    ensures Reached(WithWorker(s, w, Applying(i), false), locked)
  {
    StepReachable(s, Commit(w, NO_CHOICES, true), BATCH_SIZE, locked);
  }

  function WithRows(slot: Slot, i: nat): Slot
    requires i < 2
  {
    slot.(staging := STAGED[i])
  }

  lemma Stores(s: State, w: nat, i: nat, locked: bool)
    requires i < 2 && Stands(s, w, Validating(i, [Batch(i)]), locked) && s.workers[w].checked
    requires s.db.slots[i].staging == map[]
    ensures Reached(Moved(s, i, WithRows(s.db.slots[i], i), w, CheckingDuplicates(i)), locked)
  {
    BatchInserts(i);
    assert StoreBatch(s.db.slots[i], Batch(i)) == Stored(WithRows(s.db.slots[i], i));
    assert [Batch(i)][1..] == [];
    StepReachable(s, Commit(w, NO_CHOICES, true), BATCH_SIZE, locked);
  }

  lemma Flags(s: State, w: nat, i: nat, locked: bool)
    requires i < 2 && Stands(s, w, CheckingDuplicates(i), locked) && s.workers[w].checked
    ensures Reached(Moved(s, i, StoreDuplicates(s.db.slots[i]), w, CountingErrors(i)), locked)
  {
    StepReachable(s, Commit(w, NO_CHOICES, true), BATCH_SIZE, locked);
  }

  lemma Counts(s: State, w: nat, i: nat, locked: bool)
    requires i < 2 && Stands(s, w, CountingErrors(i), locked) && s.workers[w].checked && s.db.slots[i].errors == []
    ensures Reached(WithWorker(s, w, Deciding(i, 0), false), locked)
  {
    StepReachable(s, Commit(w, NO_CHOICES, true), BATCH_SIZE, locked);
  }

  lemma Decides(s: State, w: nat, i: nat, locked: bool)
    requires i < 2 && Stands(s, w, Deciding(i, 0), locked) && s.workers[w].checked
    ensures Reached(Moved(s, i, ValidatedSlot(s.db.slots[i], ORIGINALS[i].rowCount), w, Done), locked)
  {
    StepReachable(s, Commit(w, NO_CHOICES, true), BATCH_SIZE, locked);
  }

  // ---------------------------------------------------------------------
  // Stretches of work with the lock
  // ---------------------------------------------------------------------

  /** `t` is `s` but for report `i` and worker `w`. */
  ghost predicate Leaves(s: State, t: State, i: nat, slot: Slot, w: nat, worker: Worker)
    requires i < |s.db.slots| && w < |s.workers|
  {
    t == s.(db := Put(s.db, i, slot), workers := s.workers[w := worker])
  }

  /** From the acquired lock to a checked lock before the batch. */
  lemma ToBatch(s: State, w: nat, i: nat, locked: bool) returns (t: State)
    requires Stands(s, w, Holding, locked) && s.holder == Some(w) && i < 2 && ClaimNext(s.db.slots) == ForValidation(i)
    ensures Reached(t, locked)
    ensures Leaves(s, t, i, Restarted(s.db.slots[i]), w, Worker(Validating(i, [Batch(i)]), true))
  {
    Claims(s, w, i, locked);
    var claimed := Moved(s, i, Restarted(s.db.slots[i]), w, Validating(i, [Batch(i)]));
    Checks(claimed, w, Validating(i, [Batch(i)]), locked);
    t := WithWorker(claimed, w, Validating(i, [Batch(i)]), true);
  }

  lemma FlagsAre(slot: Slot, i: nat)
    requires i < 2
    ensures StoreDuplicates(WithRows(slot, i)).report == slot.report
    ensures StoreDuplicates(WithRows(slot, i)).staging == STAGED[i]
    ensures UniquePairs(STAGED[i]) && slot.errors == [] ==> StoreDuplicates(WithRows(slot, i)) == WithRows(slot, i)
  {
    OneIssuePerDuplicate(STAGED[i]);
  }

  /** And on to a checked lock before the errors are counted. */
  lemma ToCount(s: State, w: nat, i: nat, locked: bool) returns (t: State)
    requires i < 2 && Stands(s, w, Validating(i, [Batch(i)]), locked) && s.workers[w].checked && s.holder == Some(w)
    requires s.db.slots[i].staging == map[]
    ensures Reached(t, locked)
    ensures Leaves(s, t, i, StoreDuplicates(WithRows(s.db.slots[i], i)), w, Worker(CountingErrors(i), true))
  {
    Stores(s, w, i, locked);
    var stored := Moved(s, i, WithRows(s.db.slots[i], i), w, CheckingDuplicates(i));
    Checks(stored, w, CheckingDuplicates(i), locked);
    var checked := WithWorker(stored, w, CheckingDuplicates(i), true);
    Flags(checked, w, i, locked);
    var flagged := Moved(checked, i, StoreDuplicates(checked.db.slots[i]), w, CountingErrors(i));
    Checks(flagged, w, CountingErrors(i), locked);
    t := WithWorker(flagged, w, CountingErrors(i), true);
  }

  /** And on to the end of a validation that counts no error. */
  lemma ToDone(s: State, w: nat, i: nat, locked: bool) returns (t: State)
    requires i < 2 && Stands(s, w, CountingErrors(i), locked) && s.workers[w].checked && s.holder == Some(w)
    requires s.db.slots[i].errors == []
    ensures Reached(t, locked)
    ensures Leaves(s, t, i, ValidatedSlot(s.db.slots[i], ORIGINALS[i].rowCount), w, Worker(Done, false))
  {
    Counts(s, w, i, locked);
    var counted := WithWorker(s, w, Deciding(i, 0), false);
    Checks(counted, w, Deciding(i, 0), locked);
    var checked := WithWorker(counted, w, Deciding(i, 0), true);
    Decides(checked, w, i, locked);
    t := Moved(checked, i, ValidatedSlot(s.db.slots[i], ORIGINALS[i].rowCount), w, Done);
  }

  /** From the end of one cycle to a checked lock before the apply in the next one. */
  lemma ToApply(s: State, w: nat, i: nat, locked: bool) returns (t: State)
    requires i < 2 && Stands(s, w, Done, locked) && s.holder == Some(w) && ClaimNext(s.db.slots) == ForApply(i)
    ensures Reached(t, locked) && t == s.(workers := s.workers[w := Worker(Applying(i), true)])
  {
    Releases(s, w, locked);
    var idle := WithWorker(s, w, Idle, false).(holder := None);
    Acquires(idle, w, locked);
    var holding := WithWorker(idle, w, Holding, false).(holder := Some(w));
    ClaimsReady(holding, w, i, locked);
    var claimed := WithWorker(holding, w, Applying(i), false);
    Checks(claimed, w, Applying(i), locked);
    t := WithWorker(claimed, w, Applying(i), true);
  }

  // ---------------------------------------------------------------------
  // The first report: validated with the lock
  // ---------------------------------------------------------------------

  const START: State := State(Db([], EMPTY_TABLES), [], [IDLE, IDLE, IDLE], None)
  const REGISTERED: State := State(Db([NEW_REPORT, NEW_REPORT], EMPTY_TABLES), ORIGINALS, [IDLE, IDLE, IDLE], None)

  lemma Registers(locked: bool)
    ensures Reached(REGISTERED, locked)
  {
    StartReachable(START, BATCH_SIZE, locked);
    BothAccounted();
    StepReachable(START, Register(ONCE), BATCH_SIZE, locked);
    var one := State(Db([NEW_REPORT], EMPTY_TABLES), [ONCE], [IDLE, IDLE, IDLE], None);
    assert Step(START, Register(ONCE), BATCH_SIZE) == one;
    StepReachable(one, Register(TWICE), BATCH_SIZE, locked);
    assert Step(one, Register(TWICE), BATCH_SIZE) == REGISTERED;
  }

  const CLAIMED: Slot := Slot(Report(Processing, 0, 0, 0, 0, 0, NoFailure), map[], [])

  function ReadySlot(i: nat): Slot
    requires i < 2
  {
    Slot(CLAIMED.report.(rowCount := ORIGINALS[i].rowCount), STAGED[i], [])
  }

  lemma ReadySlots(i: nat)
    requires i < 2
    ensures Ready(ReadySlot(i)) && ValidatedSlot(CLAIMED, ORIGINALS[i].rowCount).(staging := STAGED[i]) == ReadySlot(i)
  {
    RowsStaged(i);
  }

  /** Worker 0 is about to apply the first report. */
  function FirstReady(): State {
    State(Db([ReadySlot(0), NEW_REPORT], EMPTY_TABLES), ORIGINALS, [Worker(Applying(0), true), IDLE, IDLE], Some(0))
  }

  /** Worker 0 has validated the first report. */
  lemma FirstIsValidated(locked: bool) returns (s: State)
    ensures Reached(s, locked) && s == FirstReady().(workers := [Worker(Done, false), IDLE, IDLE])
  {
    s := FirstIsStaged(locked);
    s := ToDone(s, 0, 0, locked);
    ReadySlots(0);
    assert s.db.slots == [ReadySlot(0), NEW_REPORT] && s.workers == [Worker(Done, false), IDLE, IDLE];
  }

  lemma FirstIsStaged(locked: bool) returns (s: State)
    ensures Reached(s, locked) && s.holder == Some(0) && s.db.tables == EMPTY_TABLES
    ensures s.db.slots == [WithRows(CLAIMED, 0), NEW_REPORT]
    ensures s.workers == [Worker(CountingErrors(0), true), IDLE, IDLE]
  {
    Registers(locked);
    Acquires(REGISTERED, 0, locked);
    s := WithWorker(REGISTERED, 0, Holding, false).(holder := Some(0));
    assert FirstOpen(s.db.slots, 0) == 0;
    s := ToBatch(s, 0, 0, locked);
    s := ToCount(s, 0, 0, locked);
    OncePair();
    FlagsAre(CLAIMED, 0);
  }

  lemma FirstIsReady(locked: bool)
    ensures Reached(FirstReady(), locked)
  {
    var s := FirstIsValidated(locked);
    ReadySlots(0);
    assert FirstOpen(s.db.slots, 0) == 0;
    s := ToApply(s, 0, 0, locked);
    assert s.workers == FirstReady().workers;
  }

  lemma ReachedInv(s: State, locked: bool)
    requires Reached(s, locked)
    ensures Inv(s) && (locked ==> ExclusiveInv(s, BATCH_SIZE))
    ensures CompletedAreUnique(s) ==> StockIsHistory(s.db, s.originals)
  {
    var states, actions :| LeadsTo(states, actions, s, BATCH_SIZE, locked);
    RunKeeps(states, actions, BATCH_SIZE, |actions|);
    if locked {
      ExclusiveRunKeeps(states, actions, BATCH_SIZE, |actions|);
    }
    if CompletedAreUnique(s) {
      UniqueCompletedMakeHistory(states, actions, BATCH_SIZE, |actions|);
    }
  }

  const FIRST_CHOICES: Choices := Choices(map[[65] := 1], map[[67] := 1], [2])

  lemma RowCodes(i: nat)
    requires i < 2
    ensures Codes(STAGED[i]) == {[65]} && Skus(STAGED[i]) == {[67]}
  {
    assert WarehouseLines(STAGED[i])[2].0 == [65] && ProductLines(STAGED[i])[2].0 == [67];
    assert [65] in Codes(STAGED[i]) && [67] in Skus(STAGED[i]);
  }

  lemma FirstChoices()
    ensures CanChoose(EMPTY_TABLES, STAGED[0], FIRST_CHOICES)
  {
    RowCodes(0);
    assert STAGED[0].Keys == {2};
  }

  /** Both codes are known, and their pair has a balance of 5. */
  ghost predicate FiveInStock(t: Tables) {
    && ValidTables(t) && [65] in t.warehouses && [67] in t.products
    && (t.warehouses[[65]].id, t.products[[67]].id) in t.balances
    && t.balances[(t.warehouses[[65]].id, t.products[[67]].id)] == 5
  }

  lemma FirstStock()
    ensures CanChoose(EMPTY_TABLES, STAGED[0], FIRST_CHOICES)
    ensures var done := ApplyStock(EMPTY_TABLES, STAGED[0], FIRST_CHOICES);
            done.Applied? && FiveInStock(done.tables)
  {
    FirstChoices();
    OncePair();
    ApplyIsSnapshot(EMPTY_TABLES, STAGED[0], FIRST_CHOICES);
    ApplyKeepsTablesValid(EMPTY_TABLES, STAGED[0], FIRST_CHOICES);
    ReportedPair(View(EMPTY_TABLES), STAGED[0], 2);
    var t := ApplyStock(EMPTY_TABLES, STAGED[0], FIRST_CHOICES).tables;
    CodedKey(t.warehouses, t.products, t.balances, ([65], [67]));
  }

  lemma CommittedAs(db: Db, i: nat, choices: Choices)
    requires i < |db.slots| && CanApply(db.slots[i]) && CanChoose(db.tables, db.slots[i].staging, choices)
    requires ApplyStock(db.tables, db.slots[i].staging, choices).Applied?
    ensures var done := ApplyStock(db.tables, db.slots[i].staging, choices);
            ApplyReport(db, i, choices)
            == ApplyCommitted(Db(db.slots[i := CompletedSlot(db.slots[i], done.counters)], done.tables))
  {
  }

  function AfterApply(s: State, w: nat, i: nat, t: Tables, c: Counters, stage: Stage): State
    requires w < |s.workers| && i < |s.db.slots|
  {
    WithWorker(s.(db := Db(s.db.slots[i := CompletedSlot(s.db.slots[i], c)], t)), w, stage, false)
  }

  ghost predicate GoesThrough(s: State, w: nat, i: nat, choices: Choices) {
    && w < |s.workers| && s.workers[w] == Worker(Applying(i), true) && i < |s.db.slots| == |s.originals|
    && CanApply(s.db.slots[i]) && CanChoose(s.db.tables, s.db.slots[i].staging, choices)
    && ApplyStock(s.db.tables, s.db.slots[i].staging, choices).Applied?
  }

  lemma CommitsNow(db: Db, i: nat, choices: Choices)
    requires i < |db.slots| && CanApply(db.slots[i]) && CanChoose(db.tables, db.slots[i].staging, choices)
    requires ApplyStock(db.tables, db.slots[i].staging, choices).Applied?
    ensures CommitsApply(db, Applying(i), choices, i)
  {
    CommittedAs(db, i, choices);
  }

  lemma ApplyAllowed(s: State, w: nat, i: nat, choices: Choices)
    requires GoesThrough(s, w, i, choices)
    ensures MayWrite(s.workers[w]) && CanTransact(s.db, s.workers[w].stage, s.originals, choices)
  {
  }

  lemma ApplyEnabled(s: State, w: nat, i: nat, choices: Choices, acknowledged: bool)
    requires GoesThrough(s, w, i, choices)
    ensures Enabled(s, Commit(w, choices, acknowledged)) && Applies(s, Commit(w, choices, acknowledged), i)
  {
    ApplyAllowed(s, w, i, choices);
    CommitsNow(s.db, i, choices);
  }

  lemma ApplySteps(s: State, w: nat, i: nat, choices: Choices, acknowledged: bool)
    requires GoesThrough(s, w, i, choices) && Enabled(s, Commit(w, choices, acknowledged))
    ensures var done := ApplyStock(s.db.tables, s.db.slots[i].staging, choices);
            Step(s, Commit(w, choices, acknowledged), BATCH_SIZE) ==
            AfterApply(s, w, i, done.tables, done.counters, if acknowledged then Done else ApplyRaisedFor(i))
  {
    CommittedAs(s.db, i, choices);
    ApplyTransacts(s.db, i, s.originals, BATCH_SIZE, choices);
  }

  function FirstDone(t: Tables, c: Counters, worker: Worker, holder: Option<nat>): State {
    State(Db([CompletedSlot(ReadySlot(0), c), NEW_REPORT], t), ORIGINALS, [worker, IDLE, IDLE], holder)
  }

  lemma FirstIsApplied(acknowledged: bool, locked: bool) returns (t: Tables, c: Counters)
    ensures FiveInStock(t)
    ensures Reached(FirstDone(t, c, Worker(if acknowledged then Done else ApplyRaisedFor(0), false), Some(0)), locked)
  {
    FirstIsReady(locked);
    FirstStock();
    ReadySlots(0);
    var done := ApplyStock(EMPTY_TABLES, STAGED[0], FIRST_CHOICES);
    t, c := done.tables, done.counters;
    FirstSteps(acknowledged, locked, done);
  }

  lemma FirstSteps(acknowledged: bool, locked: bool, done: Applied)
    requires Reached(FirstReady(), locked) && CanChoose(EMPTY_TABLES, STAGED[0], FIRST_CHOICES)
    requires done == ApplyStock(EMPTY_TABLES, STAGED[0], FIRST_CHOICES) && done.Applied? && Ready(ReadySlot(0))
    ensures var worker := Worker(if acknowledged then Done else ApplyRaisedFor(0), false);
            Reached(FirstDone(done.tables, done.counters, worker, Some(0)), locked)
  {
    var s, stage := FirstReady(), if acknowledged then Done else ApplyRaisedFor(0);
    ApplyEnabled(s, 0, 0, FIRST_CHOICES, acknowledged);
    ApplySteps(s, 0, 0, FIRST_CHOICES, acknowledged);
    StepReachable(s, Commit(0, FIRST_CHOICES, acknowledged), BATCH_SIZE, locked);
    FirstAfter(done.tables, done.counters, stage);
  }

  lemma FirstAfter(t: Tables, c: Counters, stage: Stage)
    ensures AfterApply(FirstReady(), 0, 0, t, c, stage) == FirstDone(t, c, Worker(stage, false), Some(0))
  {
  }

  // ---------------------------------------------------------------------
  // A commit of which the worker is not told
  // ---------------------------------------------------------------------

  /** With the lock held throughout: the apply commits, but its worker sees an
      exception, checks the lock and marks the failure. */
  lemma CompletedWithStoredError() returns (s: State)
    ensures Reached(s, true) && s.holder == Some(0)
    ensures var slot := s.db.slots[0];
            && slot.report.status == Completed && slot.report.errorCount == 0
            && slot.errors == [Issue(None, None, ApplyError)]
  {
    var t, c := FirstIsApplied(false, true);
    s := FirstDone(t, c, Worker(ApplyRaisedFor(0), false), Some(0));
    Checks(s, 0, ApplyRaisedFor(0), true);
    s := WithWorker(s, 0, ApplyRaisedFor(0), true);
    StepReachable(s, Commit(0, NO_CHOICES, true), BATCH_SIZE, true);
    s := Moved(s, 0, FailedSlot(s.db.slots[0], ApplyError), 0, Done);
  }

  // ---------------------------------------------------------------------
  // Late claims
  // ---------------------------------------------------------------------

  lemma SecondIsNext(slots: seq<Slot>)
    requires |slots| == 2 && !Open(slots[0]) && Open(slots[1])
    ensures ClaimNext(slots) == if Ready(slots[1]) then ForApply(1) else ForValidation(1)
  {
    assert FirstOpen(slots, 1) == 1;
  }

  /** Only the second report is open, and nothing but its slot and the workers has
      changed since the first one was applied. */
  ghost predicate SecondOpen(s: State, slot: Slot) {
    && Reached(s, false) && |s.workers| == 3 && FiveInStock(s.db.tables)
    && !Open(s.db.slots[0]) && s.db.slots[1] == slot
  }

  lemma AllIdle() returns (s: State)
    ensures SecondOpen(s, NEW_REPORT) && s.workers == [IDLE, IDLE, IDLE] && s.holder == None
  {
    var t, c := FirstIsApplied(true, false);
    var done := FirstDone(t, c, Worker(Done, false), Some(0));
    Releases(done, 0, false);
    s := WithWorker(done, 0, Idle, false).(holder := None);
    assert s.workers == [IDLE, IDLE, IDLE];
  }

  function Beginning(checked: bool): Worker {
    Worker(Validating(1, [Batch(1)]), checked)
  }

  /** Worker 0 has checked the lock before its batch and lost it since. */
  lemma OneLate() returns (s: State)
    ensures SecondOpen(s, CLAIMED) && s.workers == [Beginning(true), IDLE, IDLE] && s.holder == None
  {
    s := AllIdle();
    Acquires(s, 0, false);
    s := WithWorker(s, 0, Holding, false).(holder := Some(0));
    SecondIsNext(s.db.slots);
    s := ToBatch(s, 0, 1, false);
    assert s.workers == [Beginning(true), IDLE, IDLE];
    Loses(s, false);
    s := s.(holder := None);
  }

  /** Worker 1 has acquired the lock and lost it before its claim. */
  lemma TwoLate() returns (s: State)
    ensures SecondOpen(s, CLAIMED) && s.holder == None
    ensures s.workers == [Beginning(true), Worker(Holding, false), IDLE]
  {
    s := OneLate();
    Acquires(s, 1, false);
    s := WithWorker(s, 1, Holding, false).(holder := Some(1));
    assert s.workers == [Beginning(true), Worker(Holding, false), IDLE];
    Loses(s, false);
    s := s.(holder := None);
  }

  /** Worker 2 holds the lock and has flagged the second row. */
  lemma Flagged() returns (s: State, slot: Slot)
    ensures SecondOpen(s, slot) && slot.report == CLAIMED.report && s.holder == Some(2)
    ensures s.workers == [Beginning(true), Worker(Holding, false), Worker(CountingErrors(1), true)]
  {
    s := TwoLate();
    Acquires(s, 2, false);
    s := WithWorker(s, 2, Holding, false).(holder := Some(2));
    SecondIsNext(s.db.slots);
    s := ToBatch(s, 2, 1, false);
    s := ToCount(s, 2, 1, false);
    slot := StoreDuplicates(WithRows(CLAIMED, 1));
    FlagsAre(CLAIMED, 1);
    assert s.workers == [Beginning(true), Worker(Holding, false), Worker(CountingErrors(1), true)];
  }

  /** The late claim of worker 1 wipes the flag before worker 2 counts. */
  lemma Wiped() returns (s: State)
    ensures SecondOpen(s, CLAIMED) && s.holder == Some(2)
    ensures s.workers == [Beginning(true), Beginning(false), Worker(CountingErrors(1), true)]
  {
    var slot;
    s, slot := Flagged();
    SecondIsNext(s.db.slots);
    Claims(s, 1, 1, false);
    s := Moved(s, 1, Restarted(slot), 1, Validating(1, [Batch(1)]));
    assert s.workers == [Beginning(true), Beginning(false), Worker(CountingErrors(1), true)];
  }

  /** The late batch of worker 0 brings the rows back after worker 2 has decided. */
  lemma BroughtBack() returns (s: State)
    ensures SecondOpen(s, ReadySlot(1)) && s.holder == Some(2) && s.workers[2] == Worker(Done, false)
  {
    s := Wiped();
    s := ToDone(s, 2, 1, false);
    ReadySlots(1);
    assert s.workers[0] == Beginning(true);
    Stores(s, 0, 1, false);
    s := Moved(s, 1, WithRows(s.db.slots[1], 1), 0, CheckingDuplicates(1));
  }

  /** A report that is ready with one pair on two lines. */
  lemma ReadyWithoutUniquePairs() returns (s: State)
    ensures Reached(s, false) && Ready(s.db.slots[1]) && !UniquePairs(s.db.slots[1].staging)
  {
    s := BroughtBack();
    ReadySlots(1);
    TwicePair();
  }

  // ---------------------------------------------------------------------
  // The insertion order
  // ---------------------------------------------------------------------

  const LAST_FIRST: Choices := Choices(map[], map[], [3, 2])

  lemma LastFirstChoices(t: Tables)
    requires FiveInStock(t)
    ensures CanChoose(t, STAGED[1], LAST_FIRST)
  {
    RowCodes(1);
    assert STAGED[1].Keys == {2, 3};
    assert Codes(STAGED[1]) - t.warehouses.Keys == {} && Skus(STAGED[1]) - t.products.Keys == {};
  }

  lemma JoinedRows(w: Catalog, p: Catalog)
    requires [65] in w && [67] in p
    ensures var k := (w[[65]].id, p[[67]].id);
            ExplicitPairs(STAGED[1], w, p) == map[2 := (k, 7), 3 := (k, 5)]
  {
  }

  /** Row 3 finds its quantity, then row 2 writes 7. */
  lemma InsertsLastFirst(b: Balances, k: (nat, nat))
    requires k in b && b[k] == 5
    ensures InsertExplicit(b, map[2 := (k, 7), 3 := (k, 5)], [3, 2]) == Inserted(b[k := 7], {k})
  {
    var lines: Lines<(nat, nat), nat> := map[2 := (k, 7), 3 := (k, 5)];
    assert [3, 2][..1] == [3] && [3][..0] == [];
    assert InsertExplicit(b, lines, [3]) == InsertLine(Inserted(b, {}), lines, 3);
    assert InsertExplicit(b, lines, [3, 2]) == InsertLine(InsertExplicit(b, lines, [3]), lines, 2);
  }

  lemma SecondApplies(t: Tables)
    requires FiveInStock(t)
    ensures CanChoose(t, STAGED[1], LAST_FIRST) && ApplyStock(t, STAGED[1], LAST_FIRST).Applied?
  {
    LastFirstChoices(t);
    UpsertedCatalogs(t, STAGED[1], LAST_FIRST);
    var w := UpsertWarehouses(t, STAGED[1], LAST_FIRST.warehouses);
    var p := UpsertProducts(t, STAGED[1], LAST_FIRST.products);
    JoinedRows(w, p);
    InsertsLastFirst(t.balances, (w[[65]].id, p[[67]].id));
  }

  lemma EndsOnTheWrongRow()
    ensures !EndsOnHighest(PairLines(STAGED[1]), LAST_FIRST.order)
  {
    var lines := PairLines(STAGED[1]);
    assert LastProcessed(lines, [3, 2], 1) && Highest(lines, 3);
  }

  lemma SecondIsReady() returns (s: State)
    ensures SecondOpen(s, ReadySlot(1)) && s.workers[2] == Worker(Applying(1), true)
  {
    s := BroughtBack();
    ReadySlots(1);
    SecondIsNext(s.db.slots);
    s := ToApply(s, 2, 1, false);
  }

  lemma FirstIsUnique(s: State)
    requires SecondOpen(s, ReadySlot(1))
    ensures CompletedAreUnique(s)
  {
    OncePair();
    BothAccounted();
  }

  lemma SecondSteps(s: State, a: Action)
    requires SecondOpen(s, ReadySlot(1)) && s.workers[2] == Worker(Applying(1), true)
    requires a == Commit(2, LAST_FIRST, true)
    ensures Enabled(s, a) && Applies(s, a, 1) && !StepAgrees(s, a)
  {
    SecondApplies(s.db.tables);
    ReadySlots(1);
    ApplyEnabled(s, 2, 1, LAST_FIRST, true);
    EndsOnTheWrongRow();
    assert !Agrees(s.db, 1, LAST_FIRST);
  }

  /** The apply of that report, in an order that the statement leaves open, ends on
      the first of its two rows: the stock is no longer what the reports say. */
  lemma StockIsNotHistory() returns (s: State, a: Action)
    ensures Reached(s, false) && StockIsHistory(s.db, s.originals)
    ensures Enabled(s, a) && Reached(Step(s, a, BATCH_SIZE), false)
    ensures var next := Step(s, a, BATCH_SIZE); !StockIsHistory(next.db, next.originals)
  {
    s := SecondIsReady();
    a := Commit(2, LAST_FIRST, true);
    SecondSteps(s, a);
    FirstIsUnique(s);
    ReachedInv(s, false);
    StepsTo(s, a);
    StepStock(s, a, BATCH_SIZE);
  }

  lemma StepsTo(s: State, a: Action)
    requires Reached(s, false) && Enabled(s, a) && a.Commit?
    ensures Reached(Step(s, a, BATCH_SIZE), false)
  {
    StepReachable(s, a, BATCH_SIZE, false);
    TransactTables(s.db, s.workers[a.w].stage, s.originals, BATCH_SIZE, a.choices);
  }

  // ---------------------------------------------------------------------
  // One more commit
  // ---------------------------------------------------------------------

  function Alone(slots: seq<Slot>, originals: seq<Verdict>, stage: Stage, holder: Option<nat>): State {
    State(Db(slots, EMPTY_TABLES), originals, [Worker(stage, false)], holder)
  }

  const BEFORE_LOSS: State := Alone([NEW_REPORT], [ONCE], Holding, Some(0))
  const AFTER_LOSS: State := Alone([NEW_REPORT], [ONCE], Holding, None)

  lemma AcquiredAlone()
    ensures IsRun([Alone([], [], Idle, None), Alone([NEW_REPORT], [ONCE], Idle, None), BEFORE_LOSS],
                  [Register(ONCE), Acquire(0)], BATCH_SIZE)
  {
    var start, registered := Alone([], [], Idle, None), Alone([NEW_REPORT], [ONCE], Idle, None);
    BothAccounted();
    assert Step(start, Register(ONCE), BATCH_SIZE) == registered;
    SegmentSnoc([start], [], BATCH_SIZE, Register(ONCE));
    assert Step(registered, Acquire(0), BATCH_SIZE) == BEFORE_LOSS;
    SegmentSnoc([start, registered], [Register(ONCE)], BATCH_SIZE, Acquire(0));
    assert [start] + [registered] + [BEFORE_LOSS] == [start, registered, BEFORE_LOSS];
    assert [] + [Register(ONCE)] + [Acquire(0)] == [Register(ONCE), Acquire(0)];
  }

  lemma ClaimsAlone()
    ensures Enabled(BEFORE_LOSS, LoseConnection) && Step(BEFORE_LOSS, LoseConnection, BATCH_SIZE) == AFTER_LOSS
    ensures Enabled(AFTER_LOSS, Commit(0, NO_CHOICES, true))
  {
  }

  /** A worker that loses the lock after its acquisition still makes its claim: the
      bound on commits after the loss is met. */
  lemma CommitAfterLoss() returns (states: seq<State>, actions: seq<Action>)
    ensures IsRun(states, actions, BATCH_SIZE) && |actions| == 4
    ensures states[3].holder == None && 0 < |states[3].workers| && actions[3] != Acquire(0)
    ensures CommitCount(actions, 0, 3, 4) == 1
  {
    AcquiredAlone();
    states := [Alone([], [], Idle, None), Alone([NEW_REPORT], [ONCE], Idle, None), BEFORE_LOSS];
    actions := [Register(ONCE), Acquire(0)];
    ClaimsAlone();
    SegmentSnoc(states, actions, BATCH_SIZE, LoseConnection);
    states, actions := states + [AFTER_LOSS], actions + [LoseConnection];
    var claim := Commit(0, NO_CHOICES, true);
    SegmentSnoc(states, actions, BATCH_SIZE, claim);
    states, actions := states + [Step(AFTER_LOSS, claim, BATCH_SIZE)], actions + [claim];
    assert CommitCount(actions, 0, 3, 3) == 0;
  }
}
