/** How far the queue is from being drained. */
module QueueDrain {
  import opened Common
  import opened MapFolds
  import opened CsvValidation
  import opened CsvAccounting
  import opened Batches
  import opened DuplicateRows
  import opened SnapshotModel
  import opened StockTables
  import opened ReportStore
  import opened WorkerProtocol
  import opened WorkerSafety
  import opened StockHistory
  import opened ExclusiveRuns

  /** Cycles a report still needs at most. */
  function Rank(slot: Slot): nat {
    if !Open(slot) then 0 else if Ready(slot) then 1 else 2
  }

  function TotalRank(slots: seq<Slot>): nat {
    if slots == [] then 0 else TotalRank(slots[..|slots| - 1]) + Rank(slots[|slots| - 1])
  }

  lemma {:induction false} RankReplaced(slots: seq<Slot>, i: nat, slot: Slot)
    requires i < |slots|
    ensures TotalRank(slots[i := slot]) == TotalRank(slots) - Rank(slots[i]) + Rank(slot)
    ensures TotalRank(slots) >= Rank(slots[i])
  {
    var last := |slots| - 1;
    if i == last {
      assert slots[i := slot][..last] == slots[..last];
    } else {
      assert slots[i := slot][..last] == slots[..last][i := slot];
      RankReplaced(slots[..last], i, slot);
    }
  }

  lemma {:induction false} RankBound(slots: seq<Slot>)
    ensures TotalRank(slots) <= 2 * |slots|
    ensures TotalRank(slots) == 0 <==> forall i :: 0 <= i < |slots| ==> !Open(slots[i])
  {
    if slots != [] {
      RankBound(slots[..|slots| - 1]);
    }
  }

  /** What a transaction does to the queue: it replaces at most one slot. */
  ghost predicate ReplacesOne(before: seq<Slot>, after: seq<Slot>, i: nat) {
    i < |before| == |after| && after == before[i := after[i]]
  }

  /** The effect on report `i`: no rank rises, and that of an open report falls when
      the cycle ends. */
  ghost predicate RankFalls(before: seq<Slot>, after: seq<Slot>, i: nat, next: Stage) {
    && ReplacesOne(before, after, i)
    && Rank(after[i]) <= Rank(before[i])
    && (next.Done? && Open(before[i]) ==> Rank(after[i]) < Rank(before[i]))
    && (next.Done? || (HasReport(next) && next.rid == i))
  }

  lemma DecisionRanks(db: Db, i: nat, n: nat, originals: seq<Verdict>, batchSize: nat, choices: Choices)
    requires SlotsOk(db.slots, originals) && HolderOk(Deciding(i, n), db.slots, originals, batchSize)
    ensures var (after, next) := Transact(db, Deciding(i, n), originals, batchSize, choices);
            && ReplacesOne(db.slots, after.slots, i) && next.Done?
            && Rank(after.slots[i]) < Rank(db.slots[i])
  {
    var slot, v := db.slots[i], originals[i];
    NoErrorIffValid(slot, v);
    if n == 0 {
      DecisionNeverRaises(slot, v);
      CleanByCount(v);
    }
  }

  lemma StreamRanks(db: Db, i: nat, todo: seq<Write>, originals: seq<Verdict>, batchSize: nat, choices: Choices)
    requires |db.slots| == |originals| && i < |db.slots| && Unvalidated(db.slots[i])
    ensures var (after, next) := Transact(db, Validating(i, todo), originals, batchSize, choices);
            RankFalls(db.slots, after.slots, i, next)
  {
    if todo != [] && StoreBatch(db.slots[i], todo[0]).Stored? {
      assert Unvalidated(StoreBatch(db.slots[i], todo[0]).slot);
    }
  }

  lemma ApplyRanks(db: Db, i: nat, originals: seq<Verdict>, batchSize: nat, choices: Choices)
    requires CanTransact(db, Applying(i), originals, choices)
    requires db.slots[i].report.status == Processing
    ensures var (after, next) := Transact(db, Applying(i), originals, batchSize, choices);
            RankFalls(db.slots, after.slots, i, next)
  {
    ApplyTransacts(db, i, originals, batchSize, choices);
    if ApplyReport(db, i, choices).ApplyCommitted? {
      var c := ApplyShape(db, i, choices);
      CompletionRanks(db.slots, i, c);
    }
  }

  lemma CompletionRanks(slots: seq<Slot>, i: nat, c: Counters)
    requires i < |slots| && slots[i].report.status == Processing
    ensures RankFalls(slots, slots[i := CompletedSlot(slots[i], c)], i, Done)
  {
    assert !Open(CompletedSlot(slots[i], c));
  }

  lemma FailureRanks(slots: seq<Slot>, i: nat, code: IssueCode)
    requires i < |slots| && slots[i].report.status != Pending
    ensures RankFalls(slots, slots[i := FailedSlot(slots[i], code)], i, Done)
  {
    assert !Open(FailedSlot(slots[i], code));
  }

  lemma DuplicatesRank(slots: seq<Slot>, i: nat)
    requires i < |slots| && Unvalidated(slots[i])
    ensures RankFalls(slots, slots[i := StoreDuplicates(slots[i])], i, CountingErrors(i))
  {
    assert Unvalidated(StoreDuplicates(slots[i]));
  }

  lemma SlotRanks(db: Db, stage: Stage, originals: seq<Verdict>, batchSize: nat, choices: Choices)
    requires SlotsOk(db.slots, originals) && HolderOk(stage, db.slots, originals, batchSize)
    requires CanTransact(db, stage, originals, choices) && HasReport(stage)
    ensures var (after, next) := Transact(db, stage, originals, batchSize, choices);
            RankFalls(db.slots, after.slots, stage.rid, next)
  {
    var i := stage.rid;
    match stage
    case Validating(_, todo) => StreamRanks(db, i, todo, originals, batchSize, choices);
    case CheckingDuplicates(_) => DuplicatesRank(db.slots, i);
    case CountingErrors(_) =>
    case Deciding(_, n) => DecisionRanks(db, i, n, originals, batchSize, choices);
    case Applying(_) => ApplyRanks(db, i, originals, batchSize, choices);
    case ValidationRaised(_) => FailureRanks(db.slots, i, ProcessingError);
    case ApplyRaisedFor(_) => FailureRanks(db.slots, i, ApplyError);
  }

  lemma ClaimRanks(db: Db, originals: seq<Verdict>, batchSize: nat, choices: Choices)
    requires |db.slots| == |originals|
    ensures var (after, next) := Transact(db, Holding, originals, batchSize, choices);
            && (next.Done? <==> forall i :: 0 <= i < |db.slots| ==> !Open(db.slots[i]))
            && (next.Done? ==> after == db)
            && (!next.Done? ==> HasReport(next) && ReplacesOne(db.slots, after.slots, next.rid)
                                && Open(db.slots[next.rid])
                                && Rank(after.slots[next.rid]) <= Rank(db.slots[next.rid]))
  {
  }

  /** A transaction of the holder does not raise the total rank. */
  lemma TransactRank(db: Db, stage: Stage, originals: seq<Verdict>, batchSize: nat, choices: Choices)
    requires SlotsOk(db.slots, originals) && HolderOk(stage, db.slots, originals, batchSize) && batchSize >= 1
    requires CanTransact(db, stage, originals, choices)
    ensures var (after, next) := Transact(db, stage, originals, batchSize, choices);
            && TotalRank(after.slots) <= TotalRank(db.slots)
            && (next.Done? && HasReport(stage) && Open(db.slots[stage.rid]) ==>
                  TotalRank(after.slots) < TotalRank(db.slots))
  {
    var (after, next) := Transact(db, stage, originals, batchSize, choices);
    if HasReport(stage) {
      SlotRanks(db, stage, originals, batchSize, choices);
      RankReplaced(db.slots, stage.rid, after.slots[stage.rid]);
    } else {
      ClaimRanks(db, originals, batchSize, choices);
      if !next.Done? {
        RankReplaced(db.slots, next.rid, after.slots[next.rid]);
      }
    }
  }

  /** When only the lock holder commits, no step but a registration takes the queue
      further from being drained; a transaction that ends work on an open report
      brings it closer. */
  lemma RankNeverRises(s: State, a: Action, batchSize: nat)
    requires ExclusiveInv(s, batchSize) && Enabled(s, a) && Exclusive(s, a) && batchSize >= 1 && !a.Register?
    ensures TotalRank(Step(s, a, batchSize).db.slots) <= TotalRank(s.db.slots)
    ensures a.Commit? && HasReport(s.workers[a.w].stage) && Open(s.db.slots[s.workers[a.w].stage.rid])
            && Step(s, a, batchSize).workers[a.w].stage.Done? ==>
              TotalRank(Step(s, a, batchSize).db.slots) < TotalRank(s.db.slots)
  {
    if a.Commit? {
      TransactRank(s.db, s.workers[a.w].stage, s.originals, batchSize, a.choices);
    }
  }

  // ---------------------------------------------------------------------
  // One cycle at a time, without faults
  // ---------------------------------------------------------------------

  /** `errors` are those of the records of the original, then exactly one for each row
      that repeats a pair. */
  ghost predicate ReportsFaults(errors: seq<Issue>, v: Verdict) {
    exists repeats :: RepeatsReported(repeats, RowsOfOriginal(v)) && errors == IssuesOf(v.events) + repeats
  }

  lemma DeservedFaults(v: Verdict)
    ensures ReportsFaults(ErrorsDeserved(v), v)
  {
    DuplicateIssuesExact(RowsOfOriginal(v));
  }

  predicate AppliedSlot(slot: Slot, v: Verdict) {
    && slot.report.status == Completed && slot.report.failure == NoFailure
    && slot.report.rowCount == v.rowCount && slot.report.errorCount == 0 && slot.errors == []
  }

  /** Failed by validation, with all that is wrong with the original. */
  ghost predicate RejectedSlot(slot: Slot, v: Verdict) {
    && slot.report.status == Status.Failed && slot.report.failure == ValidationFailure
    && slot.report.rowCount == v.rowCount && slot.report.errorCount == |slot.errors|
    && ReportsFaults(slot.errors, v)
  }

  /** Failed by an exception of the validator, after the issues of its full batches. */
  predicate RaisedSlot(slot: Slot, v: Verdict, batchSize: nat) {
    && slot.report.status == Status.Failed && slot.report.failure == ProcessingFailure
    && slot.report.rowCount == 0 && slot.report.errorCount == |slot.errors|
    && slot.errors == IssuesIn(WritesOf(v, batchSize)) + [Issue(None, None, ProcessingError)]
  }

  /** Closed reports are completed just when their original is valid. */
  ghost predicate Decided(slots: seq<Slot>, originals: seq<Verdict>, batchSize: nat) {
    |slots| == |originals| && forall i :: 0 <= i < |slots| ==> DecidedSlot(slots[i], originals[i], batchSize)
  }

  ghost predicate DecidedSlot(slot: Slot, v: Verdict, batchSize: nat) {
    && (slot.report.status == Completed ==> ValidOriginal(v) && AppliedSlot(slot, v))
    && (slot.report.status == Status.Failed ==>
          !ValidOriginal(v) && if v.raised then RaisedSlot(slot, v, batchSize) else RejectedSlot(slot, v))
  }

  /** All the invariants, with the lock holder at `stage`. */
  ghost predicate Sound(db: Db, stage: Stage, originals: seq<Verdict>, batchSize: nat) {
    && DbInv(db, originals) && StageInv(stage, originals) && StockIsHistory(db, originals)
    && SlotsOk(db.slots, originals) && HolderOk(stage, db.slots, originals, batchSize) && RaisedOpen(stage, db.slots)
  }

  lemma HolderAgrees(db: Db, i: nat, originals: seq<Verdict>, batchSize: nat, choices: Choices)
    requires SlotsOk(db.slots, originals) && HolderOk(Applying(i), db.slots, originals, batchSize)
    ensures Agrees(db, i, choices)
  {
    assert SlotOk(db.slots[i], originals[i]);
    UniqueEnds(PairLines(db.slots[i].staging), choices.order);
  }

  lemma SoundStock(db: Db, stage: Stage, originals: seq<Verdict>, batchSize: nat, choices: Choices)
    requires Sound(db, stage, originals, batchSize) && CanTransact(db, stage, originals, choices)
    ensures StockIsHistory(Transact(db, stage, originals, batchSize, choices).0, originals)
  {
    if stage.Applying? {
      HolderAgrees(db, stage.rid, originals, batchSize, choices);
    }
    TransactStock(db, stage, originals, batchSize, choices);
  }

  lemma SoundStep(db: Db, stage: Stage, originals: seq<Verdict>, batchSize: nat, choices: Choices)
    requires Sound(db, stage, originals, batchSize) && batchSize >= 1
    requires CanTransact(db, stage, originals, choices)
    ensures var (after, next) := Transact(db, stage, originals, batchSize, choices);
            && Sound(after, next, originals, batchSize)
            && TotalRank(after.slots) <= TotalRank(db.slots)
            && (next.Done? && HasReport(stage) ==> TotalRank(after.slots) < TotalRank(db.slots))
  {
    TransactKeeps(db, stage, originals, batchSize, choices);
    SoundStock(db, stage, originals, batchSize, choices);
    TransactRaises(db, stage, originals, batchSize, choices);
    RaisedFromOpen(stage, db.slots, originals, batchSize);
    HolderTransacts(db, stage, originals, batchSize, choices);
    TransactRank(db, stage, originals, batchSize, choices);
  }

  lemma {:induction false} RowsInPrefix(writes: seq<Write>, n: nat)
    requires n <= |writes|
    ensures RowsIn(writes[..n]) <= RowsIn(writes)
    decreases |writes|
  {
    if n == |writes| {
      assert writes[..n] == writes;
    } else {
      RowsInPrefix(writes[..|writes| - 1], n);
      assert writes[..|writes| - 1][..n] == writes[..n];
    }
  }

  /** The lock holder's batches never meet a row already stored. */
  lemma NoKeyConflict(slot: Slot, v: Verdict, batchSize: nat, todo: seq<Write>)
    requires Accounted(v) && batchSize >= 1 && todo != []
    requires StoredUpTo(slot, WritesOf(v, batchSize), todo)
    ensures StoreBatch(slot, todo[0]).Stored?
  {
    var writes := WritesOf(v, batchSize);
    var n := |writes| - |todo|;
    if todo[0].StagingBatch? {
      var stored, rows := RowsIn(writes[..n]), todo[0].rows;
      assert writes[..n + 1] == writes[..n] + [todo[0]];
      WrittenSnoc(writes[..n], todo[0]);
      RowsInPrefix(writes, n + 1);
      WritesComplete(v, batchSize);
      CleanByCount(v);
      AscendingSplit(stored, rows, RowsOf(v.events));
    }
  }

  lemma AscendingSplit(stored: seq<ValidatedRow>, rows: seq<ValidatedRow>, all: seq<ValidatedRow>)
    requires Ascending(all) && stored + rows <= all
    ensures CanInsert(ByLine(stored), rows)
  {
    assert forall i :: 0 <= i < |stored| ==> stored[i] == all[i];
    assert forall i :: 0 <= i < |rows| ==> rows[i] == all[|stored| + i];
    ByLineHolds(stored);
    forall i | 0 <= i < |rows|
      ensures rows[i].line !in ByLine(stored)
    {
      assert forall k :: 0 <= k < |stored| ==> stored[k].line < rows[i].line;
    }
  }

  lemma DecidedGrows(slots: seq<Slot>, originals: seq<Verdict>, v: Verdict, batchSize: nat)
    requires Decided(slots, originals, batchSize)
    ensures Decided(slots + [NEW_REPORT], originals + [v], batchSize)
  {
    forall i | 0 <= i < |slots| + 1
      ensures DecidedSlot((slots + [NEW_REPORT])[i], (originals + [v])[i], batchSize)
    {
      if i < |slots| {
        assert DecidedSlot(slots[i], originals[i], batchSize);
      }
    }
  }

  lemma SlotsOkGrow(slots: seq<Slot>, originals: seq<Verdict>, v: Verdict)
    requires SlotsOk(slots, originals) && Accounted(v)
    ensures SlotsOk(slots + [NEW_REPORT], originals + [v])
  {
    forall i | 0 <= i < |slots| + 1
      ensures SlotOk((slots + [NEW_REPORT])[i], (originals + [v])[i]) && Accounted((originals + [v])[i])
    {
      if i < |slots| {
        assert SlotOk(slots[i], originals[i]);
      }
    }
  }

  lemma SoundGrows(db: Db, originals: seq<Verdict>, v: Verdict, batchSize: nat)
    requires Sound(db, Done, originals, batchSize) && Accounted(v)
    ensures Sound(db.(slots := db.slots + [NEW_REPORT]), Done, originals + [v], batchSize)
  {
    RegisterKeeps(db, originals, v);
    RegisterStock(db, originals, v);
    SlotsOkGrow(db.slots, originals, v);
    SoundDone(db.(slots := db.slots + [NEW_REPORT]), originals + [v], batchSize);
  }

  lemma SoundDone(db: Db, originals: seq<Verdict>, batchSize: nat)
    requires DbInv(db, originals) && StockIsHistory(db, originals) && SlotsOk(db.slots, originals)
    ensures Sound(db, Done, originals, batchSize)
  {
    NoStage(db.slots, originals, batchSize);
  }

  lemma NoStage(slots: seq<Slot>, originals: seq<Verdict>, batchSize: nat)
    requires |slots| == |originals|
    ensures StageInv(Done, originals) && HolderOk(Done, slots, originals, batchSize) && RaisedOpen(Done, slots)
  {
  }

  /** Registration as the queue sees it. */
  lemma RegisterSettles(db: Db, originals: seq<Verdict>, v: Verdict, batchSize: nat)
    requires Sound(db, Done, originals, batchSize) && Decided(db.slots, originals, batchSize) && Accounted(v)
    ensures var after := db.(slots := db.slots + [NEW_REPORT]);
            && Sound(after, Done, originals + [v], batchSize)
            && Decided(after.slots, originals + [v], batchSize)
  {
    SoundGrows(db, originals, v, batchSize);
    DecidedGrows(db.slots, originals, v, batchSize);
  }
}
