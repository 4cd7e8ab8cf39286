/** What holds in every run, for every interleaving of workers. */
module WorkerSafety {
  import opened Common
  import opened CsvValidation
  import opened CsvAccounting
  import opened Batches
  import opened StockTables
  import opened ReportStore
  import opened WorkerProtocol

  // ---------------------------------------------------------------------
  // The invariant holds throughout
  // ---------------------------------------------------------------------

  lemma EmptyDb()
    ensures DbInv(Db([], EMPTY_TABLES), [])
  {
  }

  lemma InitialInv(s: State)
    requires Initial(s)
    ensures Inv(s)
  {
    EmptyDb();
  }

  lemma StageInvGrows(stage: Stage, originals: seq<Verdict>, v: Verdict)
    requires StageInv(stage, originals)
    ensures StageInv(stage, originals + [v])
  {
    if HasReport(stage) {
      assert (originals + [v])[stage.rid] == originals[stage.rid];
    }
  }

  lemma RegisterKeeps(db: Db, originals: seq<Verdict>, v: Verdict)
    requires DbInv(db, originals) && Accounted(v)
    ensures DbInv(db.(slots := db.slots + [NEW_REPORT]), originals + [v])
  {
    SlotsGrow(db.slots, originals, v);
  }

  lemma OrderGrows(slots: seq<Slot>)
    requires NoOvertaking(slots)
    ensures NoOvertaking(slots + [NEW_REPORT])
  {
    var after := slots + [NEW_REPORT];
    forall i, j | 0 <= i < j < |after| && after[j].report.status != Pending
      ensures !Open(after[i])
    {
      assert after[j] == slots[j] && after[i] == slots[i];
    }
  }

  lemma SlotsGrow(slots: seq<Slot>, originals: seq<Verdict>, v: Verdict)
    requires SlotsInv(slots, originals) && Accounted(v)
    ensures SlotsInv(slots + [NEW_REPORT], originals + [v])
  {
    NewReportInv(v);
    OrderGrows(slots);
    forall i | 0 <= i < |slots| + 1
      ensures SlotInv((slots + [NEW_REPORT])[i], (originals + [v])[i]) && Accounted((originals + [v])[i])
    {
    }
  }

  lemma NewReportInv(v: Verdict)
    ensures SlotInv(NEW_REPORT, v)
  {
  }

  lemma ExceptionInv(stage: Stage, originals: seq<Verdict>)
    requires StageInv(stage, originals)
    ensures StageInv(OnException(stage), originals)
  {
  }

  lemma WorkerChangeKeeps(s: State, w: nat, stage: Stage, checked: bool)
    requires Inv(s) && w < |s.workers| && StageInv(stage, s.originals)
    ensures Inv(WithWorker(s, w, stage, checked))
  {
  }

  lemma CommitKeeps(s: State, w: nat, choices: Choices, acknowledged: bool, batchSize: nat)
    requires Inv(s) && batchSize >= 1 && Enabled(s, Commit(w, choices, acknowledged))
    ensures Inv(Step(s, Commit(w, choices, acknowledged), batchSize))
  {
    var stage := s.workers[w].stage;
    TransactKeeps(s.db, stage, s.originals, batchSize, choices);
    ExceptionInv(stage, s.originals);
    var (db, next) := Transact(s.db, stage, s.originals, batchSize, choices);
    WorkerChangeKeeps(s.(db := db), w, if acknowledged then next else OnException(stage), false);
  }

  lemma StepKeeps(s: State, a: Action, batchSize: nat)
    requires Inv(s) && Enabled(s, a) && batchSize >= 1
    ensures Inv(Step(s, a, batchSize))
  {
    match a
    case Register(v) =>
      RegisterKeeps(s.db, s.originals, v);
      forall w | 0 <= w < |s.workers|
        ensures StageInv(s.workers[w].stage, s.originals + [v])
      {
        StageInvGrows(s.workers[w].stage, s.originals, v);
      }
    case Acquire(w) => WorkerChangeKeeps(s, w, Holding, false);
    case LoseConnection =>
    case Crash(w) => WorkerChangeKeeps(s, w, Idle, false);
    case Release(w) => WorkerChangeKeeps(s, w, Idle, false);
    case CheckLock(w) =>
      WorkerChangeKeeps(s, w, s.workers[w].stage, true);
      WorkerChangeKeeps(s, w, Idle, false);
    case Commit(w, choices, acknowledged) => CommitKeeps(s, w, choices, acknowledged, batchSize);
    case Fault(w) =>
      ExceptionInv(s.workers[w].stage, s.originals);
      WorkerChangeKeeps(s, w, OnException(s.workers[w].stage), false);
  }

  lemma {:induction false} RunKeeps(states: seq<State>, actions: seq<Action>, batchSize: nat, n: nat)
    requires IsRun(states, actions, batchSize) && batchSize >= 1 && n < |states|
    ensures Inv(states[n])
    decreases n
  {
    if n == 0 {
      InitialInv(states[0]);
    } else {
      RunKeeps(states, actions, batchSize, n - 1);
      RunStep(states, actions, batchSize, n - 1);
      StepKeeps(states[n - 1], actions[n - 1], batchSize);
    }
  }

  /** In every reachable state nothing has been overtaken. */
  lemma NothingOvertakes(states: seq<State>, actions: seq<Action>, batchSize: nat, n: nat)
    requires IsRun(states, actions, batchSize) && batchSize >= 1 && n < |states|
    ensures NoOvertaking(states[n].db.slots)
  {
    RunKeeps(states, actions, batchSize, n);
  }

  /** In every reachable state a report that recovery takes for validated has
      exactly the rows of its original staged, and its original is clean. */
  lemma ReadinessIsSound(states: seq<State>, actions: seq<Action>, batchSize: nat, n: nat, i: nat)
    requires IsRun(states, actions, batchSize) && batchSize >= 1 && n < |states|
    requires i < |states[n].db.slots| == |states[n].originals| && ValidationIsComplete(states[n].db.slots[i])
    ensures states[n].db.slots[i].staging == RowsOfOriginal(states[n].originals[i])
    ensures Clean(states[n].originals[i])
  {
    RunKeeps(states, actions, batchSize, n);
    CountingIsSound(states[n].db.slots[i], states[n].originals[i]);
  }

  /** In every reachable state a report that failed by validation has as row count the
      number of counted records of its original, and a completed one has it too. */
  lemma RowCountsStored(states: seq<State>, actions: seq<Action>, batchSize: nat, n: nat, i: nat)
    requires IsRun(states, actions, batchSize) && batchSize >= 1 && n < |states|
    requires i < |states[n].db.slots| == |states[n].originals|
    ensures var report, v := states[n].db.slots[i].report, states[n].originals[i];
            && (report.status == Status.Failed && report.failure == ValidationFailure ==> report.rowCount == v.rowCount)
            && (report.status == Completed ==> report.rowCount == v.rowCount)
            && (report.status == Status.Failed <==> report.failure != NoFailure)
            && (report.status != Completed ==> report.created == 0 && report.updated == 0 && report.zeroed == 0)
  {
    RunKeeps(states, actions, batchSize, n);
    assert SlotInv(states[n].db.slots[i], states[n].originals[i]);
  }

  // ---------------------------------------------------------------------
  // Apply at most once
  // ---------------------------------------------------------------------

  /** The step in which report `i` is applied. */
  ghost predicate Applies(s: State, a: Action, i: nat) {
    a.Commit? && a.w < |s.workers| && CommitsApply(s.db, s.workers[a.w].stage, a.choices, i)
  }

  ghost predicate IsCompleted(s: State, i: nat) {
    i < |s.db.slots| && s.db.slots[i].report.status == Completed
  }

  /** What a transaction does to report `i` and to the stock: a closed report keeps its
      row, one becomes completed just by the apply of it, and only that changes the
      stock tables. */
  ghost predicate Effect(db: Db, after: Db, i: nat, applied: bool) {
    && i < |db.slots| == |after.slots|
    && (!Open(db.slots[i]) ==> after.slots[i].report == db.slots[i].report)
    && (after.slots[i].report.status == Completed && db.slots[i].report.status != Completed <==> applied)
  }

  lemma PutEffect(db: Db, j: nat, slot: Slot, i: nat)
    requires i < |db.slots| && j < |db.slots|
    requires !Open(db.slots[j]) ==> slot.report == db.slots[j].report
    requires slot.report.status == Completed ==> db.slots[j].report.status == Completed
    ensures Effect(db, Put(db, j, slot), i, false)
  {
  }

  lemma ApplyEffect(db: Db, j: nat, choices: Choices, i: nat)
    requires i < |db.slots| && j < |db.slots| && CanChoose(db.tables, db.slots[j].staging, choices)
    requires ApplyReport(db, j, choices).ApplyCommitted?
    ensures Effect(db, ApplyReport(db, j, choices).db, i, i == j)
  {
    var c := ApplyShape(db, j, choices);
    CompletionEffect(db, ApplyReport(db, j, choices).db, j, c, i);
  }

  lemma CompletionEffect(db: Db, after: Db, j: nat, c: Counters, i: nat)
    requires i < |db.slots| && j < |db.slots| && db.slots[j].report.status == Processing
    requires after.slots == db.slots[j := CompletedSlot(db.slots[j], c)]
    ensures Effect(db, after, i, i == j)
  {
  }

  /** The transaction at `stage` is the apply of report `i`, and it commits. */
  ghost predicate CommitsApply(db: Db, stage: Stage, choices: Choices, i: nat) {
    && stage == Applying(i) && i < |db.slots| && CanChoose(db.tables, db.slots[i].staging, choices)
    && ApplyReport(db, i, choices).ApplyCommitted?
  }

  lemma ApplyingReports(db: Db, j: nat, originals: seq<Verdict>, batchSize: nat, choices: Choices, i: nat)
    requires CanTransact(db, Applying(j), originals, choices) && i < |db.slots|
    ensures Effect(db, Transact(db, Applying(j), originals, batchSize, choices).0, i,
                   CommitsApply(db, Applying(j), choices, i))
  {
    ApplyTransacts(db, j, originals, batchSize, choices);
    if ApplyReport(db, j, choices).ApplyCommitted? {
      ApplyEffect(db, j, choices, i);
    }
  }

  lemma StreamReports(db: Db, j: nat, todo: seq<Write>, originals: seq<Verdict>, batchSize: nat, choices: Choices,
                      i: nat)
    requires CanTransact(db, Validating(j, todo), originals, choices) && i < |db.slots|
    ensures Effect(db, Transact(db, Validating(j, todo), originals, batchSize, choices).0, i, false)
  {
    if todo != [] && StoreBatch(db.slots[j], todo[0]).Stored? {
      PutEffect(db, j, StoreBatch(db.slots[j], todo[0]).slot, i);
    }
  }

  lemma ClaimReports(db: Db, originals: seq<Verdict>, batchSize: nat, choices: Choices, i: nat)
    requires CanTransact(db, Holding, originals, choices) && i < |db.slots|
    ensures Effect(db, Transact(db, Holding, originals, batchSize, choices).0, i, false)
  {
    if ClaimNext(db.slots).ForValidation? {
      var j := ClaimNext(db.slots).rid;
      PutEffect(db, j, Restarted(db.slots[j]), i);
    }
  }

  lemma DecisionReports(db: Db, j: nat, n: nat, originals: seq<Verdict>, batchSize: nat, choices: Choices, i: nat)
    requires CanTransact(db, Deciding(j, n), originals, choices) && i < |db.slots|
    ensures Effect(db, Transact(db, Deciding(j, n), originals, batchSize, choices).0, i, false)
  {
    PutEffect(db, j, ValidationFailedSlot(db.slots[j], originals[j].rowCount, n), i);
    PutEffect(db, j, ValidatedSlot(db.slots[j], originals[j].rowCount), i);
  }

  lemma TransactReports(db: Db, stage: Stage, originals: seq<Verdict>, batchSize: nat, choices: Choices, i: nat)
    requires CanTransact(db, stage, originals, choices) && i < |db.slots|
    ensures Effect(db, Transact(db, stage, originals, batchSize, choices).0, i, CommitsApply(db, stage, choices, i))
  {
    match stage
    case Holding => ClaimReports(db, originals, batchSize, choices, i);
    case Validating(j, todo) => StreamReports(db, j, todo, originals, batchSize, choices, i);
    case CheckingDuplicates(j) => PutEffect(db, j, StoreDuplicates(db.slots[j]), i);
    case CountingErrors(j) =>
    case Deciding(j, n) => DecisionReports(db, j, n, originals, batchSize, choices, i);
    case Applying(j) => ApplyingReports(db, j, originals, batchSize, choices, i);
    case ValidationRaised(j) => PutEffect(db, j, FailedSlot(db.slots[j], ProcessingError), i);
    case ApplyRaisedFor(j) => PutEffect(db, j, FailedSlot(db.slots[j], ApplyError), i);
  }

  lemma TransactTables(db: Db, stage: Stage, originals: seq<Verdict>, batchSize: nat, choices: Choices)
    requires CanTransact(db, stage, originals, choices)
    ensures var after := Transact(db, stage, originals, batchSize, choices).0;
            && |after.slots| == |db.slots|
            && (after.tables != db.tables ==> stage.Applying? && CommitsApply(db, stage, choices, stage.rid))
  {
    match stage
    case Applying(j) =>
      ApplyTransacts(db, j, originals, batchSize, choices);
      if ApplyReport(db, j, choices).ApplyCommitted? {
        ApplyEffect(db, j, choices, j);
      }
    case _ =>
  }

  /** Completed and failed are final: nothing in the report row changes any more. */
  lemma ClosedIsFinal(s: State, a: Action, batchSize: nat, i: nat)
    requires Enabled(s, a) && i < |s.db.slots| && !Open(s.db.slots[i])
    ensures i < |Step(s, a, batchSize).db.slots|
    ensures Step(s, a, batchSize).db.slots[i].report == s.db.slots[i].report
  {
    if a.Commit? {
      TransactReports(s.db, s.workers[a.w].stage, s.originals, batchSize, a.choices, i);
    }
  }

  ghost function ApplyCount(states: seq<State>, actions: seq<Action>, i: nat, n: nat): nat
    requires n <= |actions| && |states| == |actions| + 1
  {
    if n == 0 then 0
    else ApplyCount(states, actions, i, n - 1) + if Applies(states[n - 1], actions[n - 1], i) then 1 else 0
  }

  lemma CompletedByApply(s: State, a: Action, batchSize: nat, i: nat)
    requires Enabled(s, a)
    ensures IsCompleted(Step(s, a, batchSize), i) <==> IsCompleted(s, i) || Applies(s, a, i)
    ensures !(IsCompleted(s, i) && Applies(s, a, i))
  {
    if a.Commit? && i < |s.db.slots| {
      TransactReports(s.db, s.workers[a.w].stage, s.originals, batchSize, a.choices, i);
    } else if a.Commit? {
      TransactTables(s.db, s.workers[a.w].stage, s.originals, batchSize, a.choices);
    }
  }

  /** The stock tables change only in the step that completes a report. */
  lemma StockChangesOnlyOnApply(s: State, a: Action, batchSize: nat) returns (i: nat)
    requires Enabled(s, a) && Step(s, a, batchSize).db.tables != s.db.tables
    ensures Applies(s, a, i) && !IsCompleted(s, i) && IsCompleted(Step(s, a, batchSize), i)
  {
    var stage := s.workers[a.w].stage;
    TransactTables(s.db, stage, s.originals, batchSize, a.choices);
    i := stage.rid;
    CompletedByApply(s, a, batchSize, i);
  }

  lemma CountedAt(states: seq<State>, actions: seq<Action>, batchSize: nat, i: nat, k: nat) returns (applied: bool)
    requires IsRun(states, actions, batchSize) && k < |actions|
    ensures IsCompleted(states[k + 1], i) <==> IsCompleted(states[k], i) || applied
    ensures !(IsCompleted(states[k], i) && applied)
    ensures ApplyCount(states, actions, i, k + 1) == ApplyCount(states, actions, i, k) + if applied then 1 else 0
  {
    applied := Applies(states[k], actions[k], i);
    RunStep(states, actions, batchSize, k);
    CompletedByApply(states[k], actions[k], batchSize, i);
  }

  lemma CountedNext(states: seq<State>, actions: seq<Action>, batchSize: nat, i: nat, k: nat)
    requires IsRun(states, actions, batchSize) && k < |actions|
    requires ApplyCount(states, actions, i, k) == if IsCompleted(states[k], i) then 1 else 0
    ensures ApplyCount(states, actions, i, k + 1) == if IsCompleted(states[k + 1], i) then 1 else 0
  {
    var applied := CountedAt(states, actions, batchSize, i, k);
  }

  /** A report's snapshot has been applied once if it is completed, else never. */
  lemma {:induction false} AppliedOnceIffCompleted(states: seq<State>, actions: seq<Action>, batchSize: nat,
                                                   i: nat, n: nat)
    requires IsRun(states, actions, batchSize) && n <= |actions|
    ensures ApplyCount(states, actions, i, n) == if IsCompleted(states[n], i) then 1 else 0
    decreases n
  {
    if n > 0 {
      AppliedOnceIffCompleted(states, actions, batchSize, i, n - 1);
      CountedNext(states, actions, batchSize, i, n - 1);
    }
  }

  lemma RunStep(states: seq<State>, actions: seq<Action>, batchSize: nat, k: nat)
    requires IsRun(states, actions, batchSize) && k < |actions|
    ensures Enabled(states[k], actions[k]) && states[k + 1] == Step(states[k], actions[k], batchSize)
  {
    assert StepAt(states, actions, batchSize, k);
  }

  // ---------------------------------------------------------------------
  // What an exception leaves
  // ---------------------------------------------------------------------

  /** Failed by an exception: staging is gone, and an error without a line tells
      whether it came from the validation or from the apply. */
  predicate MarkedFor(before: Slot, after: Slot, applying: bool) {
    && after.report.status == Status.Failed && after.report.failure == ProcessingFailure
    && after.staging == map[] && after.report.errorCount == |after.errors|
    && after.errors == before.errors + [Issue(None, None, if applying then ApplyError else ProcessingError)]
  }

  function AfterFault(s: State, w: nat, stage: Stage, checked: bool): State
    requires w < |s.workers| && HasReport(stage)
  {
    WithWorker(s, w, if stage.Applying? then ApplyRaisedFor(stage.rid) else ValidationRaised(stage.rid), checked)
  }

  lemma FaultRaises(s: State, w: nat, batchSize: nat)
    requires w < |s.workers| && HasReport(s.workers[w].stage)
    requires !s.workers[w].stage.ValidationRaised? && !s.workers[w].stage.ApplyRaisedFor?
    ensures Enabled(s, Fault(w)) && Step(s, Fault(w), batchSize) == AfterFault(s, w, s.workers[w].stage, false)
  {
  }

  lemma MarkTransacts(s: State, w: nat, stage: Stage, choices: Choices, batchSize: nat)
    requires w < |s.workers| && HasReport(stage) && stage.rid < |s.db.slots| == |s.originals|
    requires s.db.slots[stage.rid].report.status == Processing && s.workers[w].checked
    requires s.workers[w].stage == if stage.Applying? then ApplyRaisedFor(stage.rid) else ValidationRaised(stage.rid)
    ensures Enabled(s, Commit(w, choices, true))
    ensures var after := Step(s, Commit(w, choices, true), batchSize);
            && after.db.tables == s.db.tables && |after.db.slots| == |s.db.slots|
            && MarkedFor(s.db.slots[stage.rid], after.db.slots[stage.rid], stage.Applying?)
  {
  }

  /** An exception in any stage of the work on a report, then the check of the lock and
      the next transaction: the report fails as one whose validation, or whose apply,
      raised, and the stock is untouched. */
  lemma FaultIsMarked(s: State, w: nat, choices: Choices, batchSize: nat)
    requires w < |s.workers| && s.holder == Some(w) && HasReport(s.workers[w].stage)
    requires !s.workers[w].stage.ValidationRaised? && !s.workers[w].stage.ApplyRaisedFor?
    requires s.workers[w].stage.rid < |s.db.slots| == |s.originals|
    requires s.db.slots[s.workers[w].stage.rid].report.status == Processing
    ensures Enabled(s, Fault(w)) && Enabled(Step(s, Fault(w), batchSize), CheckLock(w))
    ensures var checked := Step(Step(s, Fault(w), batchSize), CheckLock(w), batchSize);
            && Enabled(checked, Commit(w, choices, true))
            && var after := Step(checked, Commit(w, choices, true), batchSize);
               var stage := s.workers[w].stage;
               && after.db.tables == s.db.tables && |after.db.slots| == |s.db.slots|
               && MarkedFor(s.db.slots[stage.rid], after.db.slots[stage.rid], stage.Applying?)
  {
    var stage := s.workers[w].stage;
    FaultRaises(s, w, batchSize);
    var checked := AfterFault(s, w, stage, true);
    assert Step(AfterFault(s, w, stage, false), CheckLock(w), batchSize) == checked;
    MarkTransacts(checked, w, stage, choices, batchSize);
  }

  // ---------------------------------------------------------------------
  // After the lock is lost
  // ---------------------------------------------------------------------

  predicate CommitsBy(a: Action, w: nat) {
    a.Commit? && a.w == w
  }

  ghost function CommitCount(actions: seq<Action>, w: nat, start: nat, end: nat): nat
    requires start <= end <= |actions|
    decreases end
  {
    if start == end then 0
    else CommitCount(actions, w, start, end - 1) + if CommitsBy(actions[end - 1], w) then 1 else 0
  }

  lemma WithoutLock(s: State, a: Action, batchSize: nat, w: nat)
    requires Enabled(s, a) && w < |s.workers| && s.holder != Some(w) && a != Acquire(w)
    ensures |Step(s, a, batchSize).workers| == |s.workers|
    ensures MayWrite(Step(s, a, batchSize).workers[w]) ==> MayWrite(s.workers[w]) && !CommitsBy(a, w)
    ensures CommitsBy(a, w) ==> MayWrite(s.workers[w])
  {
    if CommitsBy(a, w) {
      CommitMovesOn(s.db, s.workers[w].stage, s.originals, batchSize, a.choices);
    }
  }

  lemma CommitMovesOn(db: Db, stage: Stage, originals: seq<Verdict>, batchSize: nat, choices: Choices)
    requires CanTransact(db, stage, originals, choices)
    ensures !Transact(db, stage, originals, batchSize, choices).1.Holding?
  {
    match stage
    case Applying(i) => ApplyTransacts(db, i, originals, batchSize, choices);
    case _ =>
  }

  predicate MayWriteAt(s: State, w: nat) {
    w < |s.workers| && MayWrite(s.workers[w])
  }

  lemma StepWithoutLock(states: seq<State>, actions: seq<Action>, batchSize: nat, w: nat, k: nat)
    requires IsRun(states, actions, batchSize) && k < |actions|
    requires w < |states[k].workers| && states[k].holder != Some(w) && actions[k] != Acquire(w)
    ensures MayWriteAt(states[k + 1], w) ==> MayWriteAt(states[k], w) && !CommitsBy(actions[k], w)
    ensures CommitsBy(actions[k], w) ==> MayWriteAt(states[k], w)
  {
    RunStep(states, actions, batchSize, k);
    WithoutLock(states[k], actions[k], batchSize, w);
  }

  /** From the moment its lock is gone until it acquires the lock anew, a worker
      commits at most one more transaction, and none unless the check before it, or
      the acquisition before its claim, came before the loss. */
  lemma {:induction false} AtMostOneMoreCommit(states: seq<State>, actions: seq<Action>, batchSize: nat,
                                               w: nat, start: nat, end: nat)
    requires IsRun(states, actions, batchSize) && start <= end <= |actions|
    requires forall k :: start <= k < end ==>
               w < |states[k].workers| && states[k].holder != Some(w) && actions[k] != Acquire(w)
    ensures CommitCount(actions, w, start, end) <= if MayWriteAt(states[start], w) then 1 else 0
    ensures MayWriteAt(states[end], w) ==> MayWriteAt(states[start], w) && CommitCount(actions, w, start, end) == 0
    decreases end
  {
    if start < end {
      AtMostOneMoreCommit(states, actions, batchSize, w, start, end - 1);
      StepWithoutLock(states, actions, batchSize, w, end - 1);
    }
  }
}
