/** Runs in which every claim is made with the lock, whatever else is late. */
module GuardedClaims {
  import opened Common
  import opened CsvValidation
  import opened CsvAccounting
  import opened Batches
  import opened DuplicateRows
  import opened SnapshotModel
  import opened StockTables
  import opened ReportStore
  import opened WorkerProtocol
  import opened WorkerSafety
  import opened StockHistory

  /** A claim is made by the worker whose lock connection the server still knows. */
  predicate Guarded(s: State, a: Action) {
    a.Commit? && a.w < |s.workers| && s.workers[a.w].stage.Holding? ==> s.holder == Some(a.w)
  }

  ghost predicate IsGuardedRun(states: seq<State>, actions: seq<Action>, batchSize: nat) {
    && IsRun(states, actions, batchSize)
    && forall k :: 0 <= k < |actions| ==> Guarded(states[k], actions[k])
  }

  ghost predicate UniqueOriginal(v: Verdict) {
    UniquePairs(RowsOfOriginal(v))
  }

  // ---------------------------------------------------------------------
  // The invariant
  // ---------------------------------------------------------------------

  /** A row count is recorded only for an original without a repeated pair. */
  ghost predicate CountedIsUnique(slot: Slot, v: Verdict) {
    slot.report.status == Processing && slot.report.rowCount > 0 ==> UniqueOriginal(v)
  }

  /** All of the stream but the batches `todo` is staged. */
  predicate StagedUpTo(slot: Slot, writes: seq<Write>, todo: seq<Write>) {
    && |todo| <= |writes| && todo == writes[|writes| - |todo|..]
    && ByLine(RowsIn(writes[..|writes| - |todo|])).Keys <= slot.staging.Keys
  }

  /** What the lock holder's position says about its report, unless it is closed. */
  ghost predicate HolderStored(stage: Stage, slot: Slot, v: Verdict, batchSize: nat) {
    Open(slot) ==>
      match stage
      case Validating(_, todo) => StagedUpTo(slot, WritesOf(v, batchSize), todo)
      case CheckingDuplicates(_) => RowsOfOriginal(v).Keys <= slot.staging.Keys
      case CountingErrors(_) => UniqueOriginal(v) || slot.errors != []
      case Deciding(_, n) => n == 0 ==> UniqueOriginal(v)
      case _ => true
  }

  /** A decision without errors that can still be committed is right, or too late. */
  ghost predicate DecidesRightly(worker: Worker, slot: Slot, v: Verdict) {
    worker.checked && worker.stage.Deciding? && worker.stage.errorCount == 0 && Open(slot) ==> UniqueOriginal(v)
  }

  ghost predicate WorkerOk(worker: Worker, holds: bool, slots: seq<Slot>, originals: seq<Verdict>, batchSize: nat) {
    HasReport(worker.stage) ==>
      && worker.stage.rid < |slots| && worker.stage.rid < |originals|
      && slots[worker.stage.rid].report.status != Pending
      && DecidesRightly(worker, slots[worker.stage.rid], originals[worker.stage.rid])
      && (holds ==> HolderStored(worker.stage, slots[worker.stage.rid], originals[worker.stage.rid], batchSize))
  }

  ghost predicate AllCounted(slots: seq<Slot>, originals: seq<Verdict>) {
    |slots| == |originals| && forall i :: 0 <= i < |slots| ==> CountedIsUnique(slots[i], originals[i])
  }

  ghost predicate WorkersOk(s: State, batchSize: nat) {
    forall w :: 0 <= w < |s.workers| ==>
      WorkerOk(s.workers[w], s.holder == Some(w), s.db.slots, s.originals, batchSize)
  }

  ghost predicate GuardedInv(s: State, batchSize: nat) {
    AllCounted(s.db.slots, s.originals) && WorkersOk(s, batchSize)
  }

  // ---------------------------------------------------------------------
  // What a transaction leaves to the others
  // ---------------------------------------------------------------------

  /** Nothing is lost from a report unless it is closed. */
  ghost predicate Monotone(a: Slot, b: Slot) {
    && (!Open(a) ==> !Open(b)) && (a.report.status != Pending ==> b.report.status != Pending)
    && (Open(b) ==> a.staging.Keys <= b.staging.Keys && (a.errors != [] ==> b.errors != []))
  }

  lemma PutMonotone(db: Db, i: nat, slot: Slot, j: nat)
    requires i < |db.slots| && j < |db.slots| && Monotone(db.slots[i], slot)
    ensures Monotone(db.slots[j], Put(db, i, slot).slots[j])
  {
  }

  lemma ApplyMonotone(db: Db, i: nat, originals: seq<Verdict>, batchSize: nat, choices: Choices, j: nat)
    requires CanTransact(db, Applying(i), originals, choices) && j < |db.slots|
    ensures var after := Transact(db, Applying(i), originals, batchSize, choices).0;
            |after.slots| == |db.slots| && Monotone(db.slots[j], after.slots[j])
  {
    ApplyTransacts(db, i, originals, batchSize, choices);
    if ApplyReport(db, i, choices).ApplyCommitted? {
      var c := ApplyShape(db, i, choices);
      PutMonotone(db, i, CompletedSlot(db.slots[i], c), j);
    }
  }

  lemma StreamMonotone(db: Db, i: nat, todo: seq<Write>, originals: seq<Verdict>, batchSize: nat, choices: Choices,
                       j: nat)
    requires CanTransact(db, Validating(i, todo), originals, choices) && j < |db.slots|
    ensures var after := Transact(db, Validating(i, todo), originals, batchSize, choices).0;
            |after.slots| == |db.slots| && Monotone(db.slots[j], after.slots[j])
  {
    if todo != [] && StoreBatch(db.slots[i], todo[0]).Stored? {
      PutMonotone(db, i, StoreBatch(db.slots[i], todo[0]).slot, j);
    }
  }

  lemma DecisionMonotone(db: Db, i: nat, n: nat, originals: seq<Verdict>, batchSize: nat, choices: Choices, j: nat)
    requires CanTransact(db, Deciding(i, n), originals, choices) && j < |db.slots|
    requires db.slots[i].report.status != Pending
    ensures var after := Transact(db, Deciding(i, n), originals, batchSize, choices).0;
            |after.slots| == |db.slots| && Monotone(db.slots[j], after.slots[j])
  {
    PutMonotone(db, i, ValidationFailedSlot(db.slots[i], originals[i].rowCount, n), j);
    PutMonotone(db, i, ValidatedSlot(db.slots[i], originals[i].rowCount), j);
  }

  /** No transaction but a claim takes anything from a report that stays open. */
  lemma TransactMonotone(db: Db, stage: Stage, originals: seq<Verdict>, batchSize: nat, choices: Choices, j: nat)
    requires CanTransact(db, stage, originals, choices) && HasReport(stage) && j < |db.slots|
    requires db.slots[stage.rid].report.status != Pending
    ensures var after := Transact(db, stage, originals, batchSize, choices).0;
            |after.slots| == |db.slots| && Monotone(db.slots[j], after.slots[j])
  {
    match stage
    case Validating(i, todo) => StreamMonotone(db, i, todo, originals, batchSize, choices, j);
    case CheckingDuplicates(i) => PutMonotone(db, i, StoreDuplicates(db.slots[i]), j);
    case CountingErrors(i) =>
    case Deciding(i, n) => DecisionMonotone(db, i, n, originals, batchSize, choices, j);
    case Applying(i) => ApplyMonotone(db, i, originals, batchSize, choices, j);
    case ValidationRaised(i) => PutMonotone(db, i, FailedSlot(db.slots[i], ProcessingError), j);
    case ApplyRaisedFor(i) => PutMonotone(db, i, FailedSlot(db.slots[i], ApplyError), j);
  }

  lemma StoredStays(stage: Stage, a: Slot, b: Slot, v: Verdict, batchSize: nat)
    requires HolderStored(stage, a, v, batchSize) && Monotone(a, b)
    ensures HolderStored(stage, b, v, batchSize)
  {
  }

  /** A worker that does nothing is not disturbed. */
  lemma WorkerStays(worker: Worker, holds: bool, slots: seq<Slot>, after: seq<Slot>, originals: seq<Verdict>,
                    batchSize: nat)
    requires WorkerOk(worker, holds, slots, originals, batchSize) && |after| == |slots|
    requires forall j :: 0 <= j < |slots| ==> Monotone(slots[j], after[j])
    ensures WorkerOk(worker, holds, after, originals, batchSize)
  {
    if HasReport(worker.stage) {
      var i := worker.stage.rid;
      assert Monotone(slots[i], after[i]);
      if holds {
        StoredStays(worker.stage, slots[i], after[i], originals[i], batchSize);
      }
    }
  }

  // ---------------------------------------------------------------------
  // Row counts
  // ---------------------------------------------------------------------

  /** `b` counts nothing that `a` did not count. */
  predicate CountsNoMore(a: Slot, b: Slot) {
    b.report.status == Processing && b.report.rowCount > 0 ==>
      a.report.status == Processing && a.report.rowCount > 0
  }

  lemma PutCounted(db: Db, i: nat, slot: Slot, originals: seq<Verdict>)
    requires AllCounted(db.slots, originals) && i < |db.slots| && CountedIsUnique(slot, originals[i])
    ensures AllCounted(Put(db, i, slot).slots, originals)
  {
  }

  lemma PutCountsNoMore(db: Db, i: nat, slot: Slot, originals: seq<Verdict>)
    requires AllCounted(db.slots, originals) && i < |db.slots| && CountsNoMore(db.slots[i], slot)
    ensures AllCounted(Put(db, i, slot).slots, originals)
  {
    assert CountedIsUnique(db.slots[i], originals[i]);
    PutCounted(db, i, slot, originals);
  }

  lemma ApplyCounted(db: Db, i: nat, originals: seq<Verdict>, batchSize: nat, choices: Choices)
    requires AllCounted(db.slots, originals) && CanTransact(db, Applying(i), originals, choices)
    ensures AllCounted(Transact(db, Applying(i), originals, batchSize, choices).0.slots, originals)
  {
    ApplyTransacts(db, i, originals, batchSize, choices);
    if ApplyReport(db, i, choices).ApplyCommitted? {
      var c := ApplyShape(db, i, choices);
      PutCountsNoMore(db, i, CompletedSlot(db.slots[i], c), originals);
    }
  }

  lemma StreamCounted(db: Db, i: nat, todo: seq<Write>, originals: seq<Verdict>, batchSize: nat, choices: Choices)
    requires AllCounted(db.slots, originals) && CanTransact(db, Validating(i, todo), originals, choices)
    ensures AllCounted(Transact(db, Validating(i, todo), originals, batchSize, choices).0.slots, originals)
  {
    if todo != [] && StoreBatch(db.slots[i], todo[0]).Stored? {
      PutCountsNoMore(db, i, StoreBatch(db.slots[i], todo[0]).slot, originals);
    }
  }

  lemma DecisionCounted(db: Db, i: nat, n: nat, originals: seq<Verdict>, batchSize: nat, choices: Choices)
    requires AllCounted(db.slots, originals) && CanTransact(db, Deciding(i, n), originals, choices)
    requires n == 0 && Open(db.slots[i]) ==> UniqueOriginal(originals[i])
    ensures AllCounted(Transact(db, Deciding(i, n), originals, batchSize, choices).0.slots, originals)
  {
    var slot, v := db.slots[i], originals[i];
    if n > 0 {
      PutCountsNoMore(db, i, ValidationFailedSlot(slot, v.rowCount, n), originals);
    } else if Open(slot) {
      PutCounted(db, i, ValidatedSlot(slot, v.rowCount), originals);
    } else {
      PutCountsNoMore(db, i, ValidatedSlot(slot, v.rowCount), originals);
    }
  }

  lemma ClaimCounted(db: Db, originals: seq<Verdict>, batchSize: nat, choices: Choices)
    requires AllCounted(db.slots, originals) && CanTransact(db, Holding, originals, choices)
    ensures AllCounted(Transact(db, Holding, originals, batchSize, choices).0.slots, originals)
  {
    if ClaimNext(db.slots).ForValidation? {
      var i := ClaimNext(db.slots).rid;
      PutCountsNoMore(db, i, Restarted(db.slots[i]), originals);
    }
  }

  lemma TransactCounted(db: Db, worker: Worker, originals: seq<Verdict>, batchSize: nat, choices: Choices)
    requires AllCounted(db.slots, originals) && CanTransact(db, worker.stage, originals, choices) && MayWrite(worker)
    requires WorkerOk(worker, false, db.slots, originals, batchSize)
    ensures AllCounted(Transact(db, worker.stage, originals, batchSize, choices).0.slots, originals)
  {
    match worker.stage
    case Holding => ClaimCounted(db, originals, batchSize, choices);
    case Validating(i, todo) => StreamCounted(db, i, todo, originals, batchSize, choices);
    case CheckingDuplicates(i) => PutCountsNoMore(db, i, StoreDuplicates(db.slots[i]), originals);
    case CountingErrors(i) =>
    case Deciding(i, n) => DecisionCounted(db, i, n, originals, batchSize, choices);
    case Applying(i) => ApplyCounted(db, i, originals, batchSize, choices);
    case ValidationRaised(i) => PutCountsNoMore(db, i, FailedSlot(db.slots[i], ProcessingError), originals);
    case ApplyRaisedFor(i) => PutCountsNoMore(db, i, FailedSlot(db.slots[i], ApplyError), originals);
  }

  // ---------------------------------------------------------------------
  // The holder's own transactions
  // ---------------------------------------------------------------------

  lemma {:induction false} ByLineOfAll(a: seq<ValidatedRow>, b: seq<ValidatedRow>)
    ensures ByLine(a + b).Keys == ByLine(a).Keys + ByLine(b).Keys
  {
    if b == [] {
      assert a + b == a;
    } else {
      assert (a + b)[..|a + b| - 1] == a + b[..|b| - 1];
      ByLineOfAll(a, b[..|b| - 1]);
    }
  }

  lemma RowsNext(writes: seq<Write>, w: Write)
    ensures ByLine(RowsIn(writes + [w])).Keys
         == ByLine(RowsIn(writes)).Keys + if w.StagingBatch? then ByLine(w.rows).Keys else {}
  {
    WrittenSnoc(writes, w);
    if w.StagingBatch? {
      ByLineOfAll(RowsIn(writes), w.rows);
    } else {
      assert RowsIn(writes) + [] == RowsIn(writes);
    }
  }

  /** The holder's next batch is staged with those before it. */
  lemma StageNext(slot: Slot, writes: seq<Write>, todo: seq<Write>)
    requires StagedUpTo(slot, writes, todo) && todo != [] && StoreBatch(slot, todo[0]).Stored?
    ensures StagedUpTo(StoreBatch(slot, todo[0]).slot, writes, todo[1..])
  {
    var n := |writes| - |todo|;
    assert writes[n] == todo[0] && writes[..n + 1] == writes[..n] + [todo[0]] && writes[n + 1..] == todo[1..];
    RowsNext(writes[..n], todo[0]);
  }

  /** Where the stream stands when all but `todo` is staged. */
  lemma StreamingStored(i: nat, todo: seq<Write>, slot: Slot, v: Verdict, batchSize: nat)
    requires batchSize >= 1 && StagedUpTo(slot, WritesOf(v, batchSize), todo)
    ensures HolderStored(Streaming(i, todo, v.raised), slot, v, batchSize)
  {
    if todo == [] && !v.raised {
      var writes := WritesOf(v, batchSize);
      assert writes[..|writes|] == writes;
      WritesComplete(v, batchSize);
    }
  }

  lemma ClaimStored(slot: Slot, i: nat, v: Verdict, batchSize: nat)
    requires batchSize >= 1
    ensures HolderStored(StartOf(i, v, batchSize), Restarted(slot), v, batchSize)
  {
    var writes := WritesOf(v, batchSize);
    assert writes[0..] == writes && writes[..0] == [];
    StreamingStored(i, writes, Restarted(slot), v, batchSize);
  }

  /** A repeated pair of the original leaves an error behind. */
  lemma DuplicatesLeaveErrors(slot: Slot, v: Verdict)
    requires SlotInv(slot, v) && Accounted(v) && RowsOfOriginal(v).Keys <= slot.staging.Keys
    ensures UniqueOriginal(v) || StoreDuplicates(slot).errors != []
  {
    assert slot.staging.Keys == RowsOfOriginal(v).Keys;
    assert slot.staging == RowsOfOriginal(v);
    OneIssuePerDuplicate(slot.staging);
  }

  /** Where the transaction leads the worker that makes it, as the lock holder or not. */
  ghost predicate NextOk(result: (Db, Stage), holds: bool, originals: seq<Verdict>, batchSize: nat) {
    WorkerOk(Worker(result.1, false), holds, result.0.slots, originals, batchSize)
  }

  lemma ClaimNextOk(db: Db, originals: seq<Verdict>, batchSize: nat, choices: Choices)
    requires CanTransact(db, Holding, originals, choices) && batchSize >= 1
    ensures NextOk(Transact(db, Holding, originals, batchSize, choices), true, originals, batchSize)
  {
    if ClaimNext(db.slots).ForValidation? {
      var i := ClaimNext(db.slots).rid;
      ClaimStored(db.slots[i], i, originals[i], batchSize);
    }
  }

  lemma StreamNextOk(db: Db, i: nat, todo: seq<Write>, holds: bool, originals: seq<Verdict>, batchSize: nat,
                     choices: Choices)
    requires CanTransact(db, Validating(i, todo), originals, choices) && batchSize >= 1
    requires WorkerOk(Worker(Validating(i, todo), true), holds, db.slots, originals, batchSize)
    ensures NextOk(Transact(db, Validating(i, todo), originals, batchSize, choices), holds, originals, batchSize)
  {
    var slot, v := db.slots[i], originals[i];
    if todo == [] {
      if holds && Open(slot) {
        StreamingStored(i, [], slot, v, batchSize);
      }
    } else if StoreBatch(slot, todo[0]).Stored? {
      var stored := StoreBatch(slot, todo[0]).slot;
      if holds && Open(slot) {
        StageNext(slot, WritesOf(v, batchSize), todo);
        StreamingStored(i, todo[1..], stored, v, batchSize);
      }
    }
  }

  lemma DuplicatesNextOk(db: Db, i: nat, holds: bool, originals: seq<Verdict>, batchSize: nat, choices: Choices)
    requires CanTransact(db, CheckingDuplicates(i), originals, choices) && SlotsInv(db.slots, originals)
    requires WorkerOk(Worker(CheckingDuplicates(i), true), holds, db.slots, originals, batchSize)
    ensures NextOk(Transact(db, CheckingDuplicates(i), originals, batchSize, choices), holds, originals, batchSize)
  {
    if holds && Open(db.slots[i]) {
      DuplicatesLeaveErrors(db.slots[i], originals[i]);
    }
  }

  lemma ApplyNextOk(db: Db, i: nat, holds: bool, originals: seq<Verdict>, batchSize: nat, choices: Choices)
    requires CanTransact(db, Applying(i), originals, choices)
    requires WorkerOk(Worker(Applying(i), true), holds, db.slots, originals, batchSize)
    ensures NextOk(Transact(db, Applying(i), originals, batchSize, choices), holds, originals, batchSize)
  {
    ApplyTransacts(db, i, originals, batchSize, choices);
  }

  lemma TransactNextOk(db: Db, worker: Worker, holds: bool, originals: seq<Verdict>, batchSize: nat, choices: Choices)
    requires SlotsInv(db.slots, originals) && CanTransact(db, worker.stage, originals, choices) && batchSize >= 1
    requires MayWrite(worker) && (worker.stage.Holding? ==> holds)
    requires WorkerOk(worker, holds, db.slots, originals, batchSize)
    ensures NextOk(Transact(db, worker.stage, originals, batchSize, choices), holds, originals, batchSize)
  {
    match worker.stage
    case Holding => ClaimNextOk(db, originals, batchSize, choices);
    case Validating(i, todo) => StreamNextOk(db, i, todo, holds, originals, batchSize, choices);
    case CheckingDuplicates(i) => DuplicatesNextOk(db, i, holds, originals, batchSize, choices);
    case CountingErrors(i) =>
    case Deciding(i, n) =>
    case Applying(i) => ApplyNextOk(db, i, holds, originals, batchSize, choices);
    case ValidationRaised(i) =>
    case ApplyRaisedFor(i) =>
  }

  // ---------------------------------------------------------------------
  // Steps and runs
  // ---------------------------------------------------------------------

  /** What every worker can rely on, the holder's claims included. */
  ghost predicate Onwards(a: seq<Slot>, b: seq<Slot>) {
    && |a| == |b|
    && forall j :: 0 <= j < |a| ==>
         (!Open(a[j]) ==> !Open(b[j])) && (a[j].report.status != Pending ==> b[j].report.status != Pending)
  }

  lemma ClaimOnwards(db: Db, originals: seq<Verdict>, batchSize: nat, choices: Choices)
    requires CanTransact(db, Holding, originals, choices)
    ensures Onwards(db.slots, Transact(db, Holding, originals, batchSize, choices).0.slots)
  {
  }

  lemma TransactOnwards(db: Db, worker: Worker, originals: seq<Verdict>, batchSize: nat, choices: Choices)
    requires CanTransact(db, worker.stage, originals, choices)
    requires WorkerOk(worker, false, db.slots, originals, batchSize)
    ensures Onwards(db.slots, Transact(db, worker.stage, originals, batchSize, choices).0.slots)
  {
    if worker.stage.Holding? {
      ClaimOnwards(db, originals, batchSize, choices);
    } else {
      var after := Transact(db, worker.stage, originals, batchSize, choices).0;
      TransactMonotone(db, worker.stage, originals, batchSize, choices, worker.stage.rid);
      forall j | 0 <= j < |db.slots|
        ensures Monotone(db.slots[j], after.slots[j])
      {
        TransactMonotone(db, worker.stage, originals, batchSize, choices, j);
      }
    }
  }

  lemma LateWorkerStays(worker: Worker, slots: seq<Slot>, after: seq<Slot>, originals: seq<Verdict>, batchSize: nat)
    requires WorkerOk(worker, false, slots, originals, batchSize) && Onwards(slots, after)
    ensures WorkerOk(worker, false, after, originals, batchSize)
  {
  }

  lemma HolderStays(db: Db, actor: Worker, worker: Worker, originals: seq<Verdict>, batchSize: nat, choices: Choices)
    requires CanTransact(db, actor.stage, originals, choices) && HasReport(actor.stage)
    requires WorkerOk(actor, false, db.slots, originals, batchSize)
    requires WorkerOk(worker, true, db.slots, originals, batchSize)
    ensures WorkerOk(worker, true, Transact(db, actor.stage, originals, batchSize, choices).0.slots, originals,
                     batchSize)
  {
    var after := Transact(db, actor.stage, originals, batchSize, choices).0;
    TransactMonotone(db, actor.stage, originals, batchSize, choices, actor.stage.rid);
    forall j | 0 <= j < |db.slots|
      ensures Monotone(db.slots[j], after.slots[j])
    {
      TransactMonotone(db, actor.stage, originals, batchSize, choices, j);
    }
    WorkerStays(worker, true, db.slots, after.slots, originals, batchSize);
  }

  lemma ExceptionOk(worker: Worker, holds: bool, slots: seq<Slot>, after: seq<Slot>, originals: seq<Verdict>,
                    batchSize: nat)
    requires WorkerOk(worker, false, slots, originals, batchSize) && Onwards(slots, after)
    ensures WorkerOk(Worker(OnException(worker.stage), false), holds, after, originals, batchSize)
  {
  }

  /** The committing worker itself. */
  lemma CommitterOk(s: State, w: nat, choices: Choices, acknowledged: bool, batchSize: nat)
    requires Inv(s) && GuardedInv(s, batchSize) && batchSize >= 1
    requires Enabled(s, Commit(w, choices, acknowledged)) && Guarded(s, Commit(w, choices, acknowledged))
    ensures var next := Step(s, Commit(w, choices, acknowledged), batchSize);
            WorkerOk(next.workers[w], s.holder == Some(w), next.db.slots, s.originals, batchSize)
  {
    var worker, holds := s.workers[w], s.holder == Some(w);
    assert WorkerOk(worker, holds, s.db.slots, s.originals, batchSize);
    if acknowledged {
      TransactNextOk(s.db, worker, holds, s.originals, batchSize, choices);
    } else {
      TransactOnwards(s.db, worker, s.originals, batchSize, choices);
      ExceptionOk(worker, holds, s.db.slots, Transact(s.db, worker.stage, s.originals, batchSize, choices).0.slots,
                  s.originals, batchSize);
    }
  }

  /** Every other worker. */
  lemma BystanderOk(s: State, w: nat, choices: Choices, acknowledged: bool, batchSize: nat, v: nat)
    requires GuardedInv(s, batchSize) && v < |s.workers| && v != w
    requires Enabled(s, Commit(w, choices, acknowledged)) && Guarded(s, Commit(w, choices, acknowledged))
    ensures var next := Step(s, Commit(w, choices, acknowledged), batchSize);
            WorkerOk(s.workers[v], s.holder == Some(v), next.db.slots, s.originals, batchSize)
  {
    var actor, worker := s.workers[w], s.workers[v];
    assert WorkerOk(actor, s.holder == Some(w), s.db.slots, s.originals, batchSize);
    assert WorkerOk(worker, s.holder == Some(v), s.db.slots, s.originals, batchSize);
    if s.holder == Some(v) {
      HolderStays(s.db, actor, worker, s.originals, batchSize, choices);
    } else {
      TransactOnwards(s.db, actor, s.originals, batchSize, choices);
      LateWorkerStays(worker, s.db.slots, Transact(s.db, actor.stage, s.originals, batchSize, choices).0.slots,
                      s.originals, batchSize);
    }
  }

  lemma CommitGuarded(s: State, w: nat, choices: Choices, acknowledged: bool, batchSize: nat)
    requires Inv(s) && GuardedInv(s, batchSize) && batchSize >= 1
    requires Enabled(s, Commit(w, choices, acknowledged)) && Guarded(s, Commit(w, choices, acknowledged))
    ensures GuardedInv(Step(s, Commit(w, choices, acknowledged), batchSize), batchSize)
  {
    var next := Step(s, Commit(w, choices, acknowledged), batchSize);
    TransactCounted(s.db, s.workers[w], s.originals, batchSize, choices);
    forall v | 0 <= v < |s.workers|
      ensures WorkerOk(next.workers[v], next.holder == Some(v), next.db.slots, next.originals, batchSize)
    {
      if v == w {
        CommitterOk(s, w, choices, acknowledged, batchSize);
      } else {
        BystanderOk(s, w, choices, acknowledged, batchSize, v);
      }
    }
  }

  lemma CountedGrows(slots: seq<Slot>, originals: seq<Verdict>, v: Verdict)
    requires AllCounted(slots, originals)
    ensures AllCounted(slots + [NEW_REPORT], originals + [v])
  {
    forall i | 0 <= i < |slots| + 1
      ensures CountedIsUnique((slots + [NEW_REPORT])[i], (originals + [v])[i])
    {
      if i < |slots| {
        assert CountedIsUnique(slots[i], originals[i]);
      }
    }
  }

  lemma WorkerKeptOn(worker: Worker, holds: bool, slots: seq<Slot>, originals: seq<Verdict>, v: Verdict, batchSize: nat)
    requires WorkerOk(worker, holds, slots, originals, batchSize)
    ensures WorkerOk(worker, holds, slots + [NEW_REPORT], originals + [v], batchSize)
  {
    if HasReport(worker.stage) {
      assert (slots + [NEW_REPORT])[worker.stage.rid] == slots[worker.stage.rid];
      assert (originals + [v])[worker.stage.rid] == originals[worker.stage.rid];
    }
  }

  lemma RegisterGuarded(s: State, v: Verdict, batchSize: nat)
    requires GuardedInv(s, batchSize) && Accounted(v)
    ensures GuardedInv(Step(s, Register(v), batchSize), batchSize)
  {
    CountedGrows(s.db.slots, s.originals, v);
    forall w | 0 <= w < |s.workers|
      ensures WorkerOk(s.workers[w], s.holder == Some(w), s.db.slots + [NEW_REPORT], s.originals + [v], batchSize)
    {
      WorkerKeptOn(s.workers[w], s.holder == Some(w), s.db.slots, s.originals, v, batchSize);
    }
  }

  /** A change of one worker, and of the holder, that touches no report. */
  lemma WorkerMoves(s: State, w: nat, worker: Worker, holder: Option<nat>, batchSize: nat)
    requires GuardedInv(s, batchSize) && w < |s.workers|
    requires WorkerOk(worker, holder == Some(w), s.db.slots, s.originals, batchSize)
    requires holder.Some? && holder != Some(w) ==> holder == s.holder
    ensures GuardedInv(s.(workers := s.workers[w := worker], holder := holder), batchSize)
  {
    forall v | 0 <= v < |s.workers|
      ensures WorkerOk(s.workers[w := worker][v], holder == Some(v), s.db.slots, s.originals, batchSize)
    {
      assert WorkerOk(s.workers[v], s.holder == Some(v), s.db.slots, s.originals, batchSize);
    }
  }

  lemma FaultGuarded(s: State, w: nat, batchSize: nat)
    requires GuardedInv(s, batchSize) && Enabled(s, Fault(w))
    ensures GuardedInv(Step(s, Fault(w), batchSize), batchSize)
  {
    assert WorkerOk(s.workers[w], s.holder == Some(w), s.db.slots, s.originals, batchSize);
    ExceptionOk(s.workers[w], s.holder == Some(w), s.db.slots, s.db.slots, s.originals, batchSize);
    WorkerMoves(s, w, Worker(OnException(s.workers[w].stage), false), s.holder, batchSize);
  }

  lemma CheckGuarded(s: State, w: nat, batchSize: nat)
    requires GuardedInv(s, batchSize) && Enabled(s, CheckLock(w))
    ensures GuardedInv(Step(s, CheckLock(w), batchSize), batchSize)
  {
    assert WorkerOk(s.workers[w], s.holder == Some(w), s.db.slots, s.originals, batchSize);
    if s.holder == Some(w) {
      WorkerMoves(s, w, s.workers[w].(checked := true), s.holder, batchSize);
    } else {
      WorkerMoves(s, w, IDLE, s.holder, batchSize);
    }
  }

  lemma StepGuarded(s: State, a: Action, batchSize: nat)
    requires Inv(s) && GuardedInv(s, batchSize) && Enabled(s, a) && Guarded(s, a) && batchSize >= 1
    ensures GuardedInv(Step(s, a, batchSize), batchSize)
  {
    match a
    case Register(v) => RegisterGuarded(s, v, batchSize);
    case Acquire(w) => WorkerMoves(s, w, Worker(Holding, false), Some(w), batchSize);
    case LoseConnection =>
      var w := s.holder.value;
      if w < |s.workers| {
        assert WorkerOk(s.workers[w], true, s.db.slots, s.originals, batchSize);
        WorkerMoves(s, w, s.workers[w], None, batchSize);
      }
    case Crash(w) => WorkerMoves(s, w, IDLE, if s.holder == Some(w) then None else s.holder, batchSize);
    case Release(w) => WorkerMoves(s, w, IDLE, if s.holder == Some(w) then None else s.holder, batchSize);
    case CheckLock(w) => CheckGuarded(s, w, batchSize);
    case Commit(w, choices, acknowledged) => CommitGuarded(s, w, choices, acknowledged, batchSize);
    case Fault(w) => FaultGuarded(s, w, batchSize);
  }

  lemma {:induction false} GuardedRunKeeps(states: seq<State>, actions: seq<Action>, batchSize: nat, n: nat)
    requires IsGuardedRun(states, actions, batchSize) && batchSize >= 1 && n < |states|
    ensures GuardedInv(states[n], batchSize)
    decreases n
  {
    if n > 0 {
      GuardedRunKeeps(states, actions, batchSize, n - 1);
      RunKeeps(states, actions, batchSize, n - 1);
      RunStep(states, actions, batchSize, n - 1);
      StepGuarded(states[n - 1], actions[n - 1], batchSize);
    }
  }

  /** When claims are made with the lock, a report that recovery takes for validated
      has no repeated pair, whatever batches, decisions, marks, faults, crashes and
      unacknowledged commits of late workers come between. */
  lemma ReadyIsUnique(states: seq<State>, actions: seq<Action>, batchSize: nat, n: nat, i: nat)
    requires IsGuardedRun(states, actions, batchSize) && batchSize >= 1 && n < |states|
    requires i < |states[n].db.slots| && Ready(states[n].db.slots[i])
    ensures UniquePairs(states[n].db.slots[i].staging)
  {
    GuardedRunKeeps(states, actions, batchSize, n);
    RunKeeps(states, actions, batchSize, n);
    ReadinessIsSound(states, actions, batchSize, n, i);
    assert CountedIsUnique(states[n].db.slots[i], states[n].originals[i]);
  }

  lemma StepCompletes(s: State, a: Action, batchSize: nat, i: nat)
    requires AllCounted(s.db.slots, s.originals) && Enabled(s, a) && IsCompleted(Step(s, a, batchSize), i)
    ensures IsCompleted(s, i) || Applies(s, a, i)
    ensures var after := Step(s, a, batchSize).originals;
            && i < |s.originals| && i < |after| && after[i] == s.originals[i]
            && (!IsCompleted(s, i) ==> UniqueOriginal(s.originals[i]))
  {
    CompletedByApply(s, a, batchSize, i);
    CompletedStays(s, a, batchSize, i);
    if !IsCompleted(s, i) {
      AppliedIsCounted(s, a, i);
    }
  }

  /** Then no completed original has a repeated pair. */
  lemma {:induction false} CompletedIsUnique(states: seq<State>, actions: seq<Action>, batchSize: nat, n: nat, i: nat)
    requires IsGuardedRun(states, actions, batchSize) && batchSize >= 1 && n < |states| && IsCompleted(states[n], i)
    ensures i < |states[n].originals| && UniqueOriginal(states[n].originals[i])
    decreases n
  {
    if n > 0 {
      RunStep(states, actions, batchSize, n - 1);
      GuardedRunKeeps(states, actions, batchSize, n - 1);
      StepCompletes(states[n - 1], actions[n - 1], batchSize, i);
      if IsCompleted(states[n - 1], i) {
        CompletedIsUnique(states, actions, batchSize, n - 1, i);
      }
    }
  }

  /** Then the stock is the fold of the completed reports in every reachable state,
      for every insertion order. */
  lemma StockIsAlwaysHistory(states: seq<State>, actions: seq<Action>, batchSize: nat, n: nat)
    requires IsGuardedRun(states, actions, batchSize) && batchSize >= 1 && n < |states|
    ensures StockIsHistory(states[n].db, states[n].originals)
  {
    forall i: nat | IsCompleted(states[n], i) && i < |states[n].originals|
      ensures UniquePairs(RowsOfOriginal(states[n].originals[i]))
    {
      CompletedIsUnique(states, actions, batchSize, n, i);
    }
    UniqueCompletedMakeHistory(states, actions, batchSize, n);
  }

  lemma AppliedIsCounted(s: State, a: Action, i: nat)
    requires AllCounted(s.db.slots, s.originals) && Applies(s, a, i)
    ensures UniqueOriginal(s.originals[i])
  {
    assert CountedIsUnique(s.db.slots[i], s.originals[i]);
  }
}
