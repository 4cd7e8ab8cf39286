/** The stock tables as the fold of the completed reports, for every insertion order. */
module StockHistory {
  import opened Common
  import opened MapFolds
  import opened CsvValidation
  import opened SnapshotModel
  import opened StockTables
  import opened ApplyCounters
  import opened ReportStore
  import opened WorkerProtocol
  import opened WorkerSafety

  const EMPTY_STOCK: Stock := Stock(map[], map[], map[])

  /** The snapshots of the completed reports among the first `n`, in queue order. */
  ghost function History(slots: seq<Slot>, originals: seq<Verdict>, n: nat): Stock
    requires n <= |slots| && n <= |originals|
  {
    if n == 0 then EMPTY_STOCK
    else
      var before := History(slots, originals, n - 1);
      if slots[n - 1].report.status == Completed
      then Snapshot(before, RowsOfOriginal(originals[n - 1])) else before
  }

  /** The stock tables are the fold of the completed reports in queue order. */
  ghost predicate StockIsHistory(db: Db, originals: seq<Verdict>) {
    |db.slots| == |originals| && View(db.tables) == History(db.slots, originals, |db.slots|)
  }

  // ---------------------------------------------------------------------
  // What extends the history
  // ---------------------------------------------------------------------

  lemma {:induction false} HistoryAgrees(a: seq<Slot>, b: seq<Slot>, oa: seq<Verdict>, ob: seq<Verdict>, n: nat)
    requires n <= |a| && n <= |b| && n <= |oa| && n <= |ob|
    requires forall i :: 0 <= i < n ==> oa[i] == ob[i]
    requires forall i :: 0 <= i < n ==> (a[i].report.status == Completed <==> b[i].report.status == Completed)
    ensures History(a, oa, n) == History(b, ob, n)
  {
    if n > 0 {
      HistoryAgrees(a, b, oa, ob, n - 1);
    }
  }

  lemma {:induction false} HistoryTail(slots: seq<Slot>, originals: seq<Verdict>, m: nat, n: nat)
    requires m <= n <= |slots| && n <= |originals|
    requires forall i :: m <= i < n ==> slots[i].report.status != Completed
    ensures History(slots, originals, n) == History(slots, originals, m)
    decreases n - m
  {
    if m < n {
      HistoryTail(slots, originals, m, n - 1);
    }
  }

  lemma HistoryNext(slots: seq<Slot>, originals: seq<Verdict>, i: nat)
    requires i < |slots| && i < |originals| && slots[i].report.status == Completed
    ensures History(slots, originals, i + 1) == Snapshot(History(slots, originals, i), RowsOfOriginal(originals[i]))
  {
  }

  /** When an open report completes, its snapshot comes last in the history. */
  lemma HistoryGrows(slots: seq<Slot>, i: nat, slot: Slot, originals: seq<Verdict>)
    requires NoOvertaking(slots) && i < |slots| == |originals|
    requires slots[i].report.status == Processing && slot.report.status == Completed
    ensures History(slots[i := slot], originals, |slots|)
         == Snapshot(History(slots, originals, |slots|), RowsOfOriginal(originals[i]))
  {
    var after, n := slots[i := slot], |slots|;
    PendingAfterOpen(slots, i);
    HistoryTail(slots, originals, i, n);
    HistoryTail(after, originals, i + 1, n);
    HistoryAgrees(slots, after, originals, originals, i);
    HistoryNext(after, originals, i);
  }

  lemma HistoryUnchanged(slots: seq<Slot>, originals: seq<Verdict>, v: Verdict)
    requires |slots| == |originals|
    ensures History(slots + [NEW_REPORT], originals + [v], |slots| + 1) == History(slots, originals, |slots|)
  {
    var slots', all, n := slots + [NEW_REPORT], originals + [v], |slots|;
    HistoryAgrees(slots, slots', originals, all, n);
    assert slots'[n] == NEW_REPORT;
  }

  lemma EmptyNames(c: Catalog)
    requires c.Keys == {}
    ensures Names(c) == map[]
  {
    assert Names(c).Keys == {};
  }

  lemma EmptyCoded(w: Catalog, p: Catalog, b: Balances)
    requires w.Keys == {}
    ensures Coded(w, p, b) == map[]
  {
    forall k: (Text, Text)
      ensures k !in Coded(w, p, b)
    {
      CodedKey(w, p, b, k);
    }
    assert Coded(w, p, b).Keys == {};
  }

  lemma EmptyHistory()
    ensures StockIsHistory(Db([], EMPTY_TABLES), [])
  {
    EmptyCoded(map[], map[], map[]);
    EmptyNames(map[]);
  }

  // ---------------------------------------------------------------------
  // One transaction
  // ---------------------------------------------------------------------

  /** In the insertion each pair ends on the quantity of its highest row. */
  ghost predicate Agrees(db: Db, i: nat, choices: Choices)
    requires i < |db.slots|
  {
    EndsOnHighest(PairLines(db.slots[i].staging), choices.order)
  }

  lemma SameStock(db: Db, after: Db, originals: seq<Verdict>)
    requires |after.slots| == |db.slots| == |originals| && after.tables == db.tables
    requires forall i :: 0 <= i < |db.slots| ==>
               (after.slots[i].report.status == Completed <==> db.slots[i].report.status == Completed)
    ensures StockIsHistory(after, originals) <==> StockIsHistory(db, originals)
  {
    HistoryAgrees(db.slots, after.slots, originals, originals, |originals|);
  }

  lemma AppliedStaging(db: Db, i: nat, choices: Choices, originals: seq<Verdict>)
    requires DbInv(db, originals) && CommitsApply(db, Applying(i), choices, i)
    ensures db.slots[i].staging == RowsOfOriginal(originals[i])
  {
    CountingIsSound(db.slots[i], originals[i]);
  }

  lemma AppliedTables(db: Db, i: nat, choices: Choices)
    requires CommitsApply(db, Applying(i), choices, i)
    ensures var done := ApplyStock(db.tables, db.slots[i].staging, choices);
            done.Applied? && ApplyReport(db, i, choices).db.tables == done.tables
  {
  }

  lemma AppliedView(db: Db, i: nat, choices: Choices, originals: seq<Verdict>)
    requires DbInv(db, originals) && CommitsApply(db, Applying(i), choices, i)
    ensures View(ApplyReport(db, i, choices).db.tables) == Snapshot(View(db.tables), RowsOfOriginal(originals[i]))
            <==> Agrees(db, i, choices)
  {
    AppliedStaging(db, i, choices, originals);
    AppliedTables(db, i, choices);
    ApplyIsSnapshot(db.tables, db.slots[i].staging, choices);
  }

  lemma AppliedHistory(db: Db, i: nat, choices: Choices, originals: seq<Verdict>)
    requires DbInv(db, originals) && CommitsApply(db, Applying(i), choices, i)
    ensures var after := ApplyReport(db, i, choices).db;
            && |after.slots| == |originals|
            && History(after.slots, originals, |originals|)
               == Snapshot(History(db.slots, originals, |originals|), RowsOfOriginal(originals[i]))
  {
    var c := ApplyShape(db, i, choices);
    HistoryGrows(db.slots, i, CompletedSlot(db.slots[i], c), originals);
  }

  /** An apply extends the stock by the report's snapshot just when it agrees. */
  lemma ApplyExtends(db: Db, i: nat, choices: Choices, originals: seq<Verdict>)
    requires DbInv(db, originals) && CommitsApply(db, Applying(i), choices, i) && StockIsHistory(db, originals)
    ensures StockIsHistory(ApplyReport(db, i, choices).db, originals) <==> Agrees(db, i, choices)
  {
    AppliedView(db, i, choices, originals);
    AppliedHistory(db, i, choices, originals);
  }

  lemma OtherTransactions(db: Db, stage: Stage, originals: seq<Verdict>, batchSize: nat, choices: Choices)
    requires CanTransact(db, stage, originals, choices)
    requires stage.Applying? ==> !CommitsApply(db, stage, choices, stage.rid)
    ensures StockIsHistory(Transact(db, stage, originals, batchSize, choices).0, originals)
            <==> StockIsHistory(db, originals)
  {
    var after := Transact(db, stage, originals, batchSize, choices).0;
    TransactTables(db, stage, originals, batchSize, choices);
    forall i | 0 <= i < |db.slots|
      ensures after.slots[i].report.status == Completed <==> db.slots[i].report.status == Completed
    {
      TransactReports(db, stage, originals, batchSize, choices, i);
    }
    SameStock(db, after, originals);
  }

  lemma TransactStock(db: Db, stage: Stage, originals: seq<Verdict>, batchSize: nat, choices: Choices)
    requires DbInv(db, originals) && CanTransact(db, stage, originals, choices) && StockIsHistory(db, originals)
    ensures StockIsHistory(Transact(db, stage, originals, batchSize, choices).0, originals) <==>
              (stage.Applying? && CommitsApply(db, stage, choices, stage.rid) ==> Agrees(db, stage.rid, choices))
  {
    if stage.Applying? && CommitsApply(db, stage, choices, stage.rid) {
      ApplyTransacts(db, stage.rid, originals, batchSize, choices);
      ApplyExtends(db, stage.rid, choices, originals);
    } else {
      OtherTransactions(db, stage, originals, batchSize, choices);
    }
  }

  // ---------------------------------------------------------------------
  // Every run
  // ---------------------------------------------------------------------

  ghost predicate StepAgrees(s: State, a: Action) {
    forall i: nat :: Applies(s, a, i) ==> Agrees(s.db, i, a.choices)
  }

  lemma CommitStock(s: State, a: Action, batchSize: nat)
    requires Inv(s) && Enabled(s, a) && a.Commit? && StockIsHistory(s.db, s.originals)
    ensures StockIsHistory(Step(s, a, batchSize).db, s.originals) <==> StepAgrees(s, a)
  {
    var stage := s.workers[a.w].stage;
    TransactStock(s.db, stage, s.originals, batchSize, a.choices);
    if stage.Applying? {
      assert Applies(s, a, stage.rid) <==> CommitsApply(s.db, stage, a.choices, stage.rid);
    }
  }

  lemma RegisterStock(db: Db, originals: seq<Verdict>, v: Verdict)
    requires StockIsHistory(db, originals)
    ensures StockIsHistory(db.(slots := db.slots + [NEW_REPORT]), originals + [v])
  {
    HistoryUnchanged(db.slots, originals, v);
  }

  lemma StepStock(s: State, a: Action, batchSize: nat)
    requires Inv(s) && Enabled(s, a) && StockIsHistory(s.db, s.originals)
    ensures StockIsHistory(Step(s, a, batchSize).db, Step(s, a, batchSize).originals) <==> StepAgrees(s, a)
  {
    match a
    case Commit(w, choices, acknowledged) => CommitStock(s, a, batchSize);
    case Register(v) => RegisterStock(s.db, s.originals, v);
    case _ =>
  }

  ghost predicate StockIsHistoryAt(states: seq<State>, n: nat) {
    n < |states| && StockIsHistory(states[n].db, states[n].originals)
  }

  ghost predicate StepAgreesAt(states: seq<State>, actions: seq<Action>, k: nat) {
    k < |actions| && k < |states| && StepAgrees(states[k], actions[k])
  }

  lemma {:induction false} AgreeingSteps(states: seq<State>, actions: seq<Action>, batchSize: nat, n: nat)
    requires IsRun(states, actions, batchSize) && batchSize >= 1 && n < |states|
    requires forall k: nat :: k < n ==> StepAgreesAt(states, actions, k)
    ensures StockIsHistoryAt(states, n)
    decreases n
  {
    if n == 0 {
      EmptyHistory();
    } else {
      AgreeingSteps(states, actions, batchSize, n - 1);
      RunKeeps(states, actions, batchSize, n - 1);
      RunStep(states, actions, batchSize, n - 1);
      assert StepAgreesAt(states, actions, n - 1);
      StepStock(states[n - 1], actions[n - 1], batchSize);
    }
  }

  lemma HistoryStepAgrees(states: seq<State>, actions: seq<Action>, batchSize: nat, k: nat)
    requires IsRun(states, actions, batchSize) && batchSize >= 1 && k < |actions|
    requires StockIsHistoryAt(states, k) && StockIsHistoryAt(states, k + 1)
    ensures StepAgreesAt(states, actions, k)
  {
    RunKeeps(states, actions, batchSize, k);
    RunStep(states, actions, batchSize, k);
    StepStock(states[k], actions[k], batchSize);
  }

  /** In every run, whatever the interleaving and the insertion orders, the stock has
      been the fold of the completed reports throughout exactly when every apply has
      ended each pair on the quantity of its highest row. */
  lemma StockIsHistoryExactly(states: seq<State>, actions: seq<Action>, batchSize: nat, n: nat)
    requires IsRun(states, actions, batchSize) && batchSize >= 1 && n < |states|
    ensures (forall m: nat :: m <= n ==> StockIsHistoryAt(states, m)) <==>
              (forall k: nat :: k < n ==> StepAgreesAt(states, actions, k))
  {
    if forall m: nat :: m <= n ==> StockIsHistoryAt(states, m) {
      forall k: nat | k < n
        ensures StepAgreesAt(states, actions, k)
      {
        assert StockIsHistoryAt(states, k) && StockIsHistoryAt(states, k + 1);
        HistoryStepAgrees(states, actions, batchSize, k);
      }
    }
    if forall k: nat :: k < n ==> StepAgreesAt(states, actions, k) {
      forall m: nat | m <= n
        ensures StockIsHistoryAt(states, m)
      {
        AgreeingSteps(states, actions, batchSize, m);
      }
    }
  }

  lemma UniqueStepAgrees(s: State, a: Action)
    requires Inv(s)
    requires forall i: nat :: Applies(s, a, i) ==>
               i < |s.originals| && UniquePairs(RowsOfOriginal(s.originals[i]))
    ensures StepAgrees(s, a)
  {
    forall i: nat | Applies(s, a, i)
      ensures Agrees(s.db, i, a.choices)
    {
      AppliedStaging(s.db, i, a.choices, s.originals);
      UniqueEnds(PairLines(s.db.slots[i].staging), a.choices.order);
    }
  }

  /** A report that is completed, or gets so in this step, stays that of its original. */
  lemma CompletedStays(s: State, a: Action, batchSize: nat, i: nat)
    requires |s.db.slots| == |s.originals| && Enabled(s, a) && (IsCompleted(s, i) || Applies(s, a, i))
    ensures IsCompleted(Step(s, a, batchSize), i)
    ensures var after := Step(s, a, batchSize).originals;
            i < |s.originals| && i < |after| && after[i] == s.originals[i]
  {
    CompletedByApply(s, a, batchSize, i);
  }

  ghost predicate CompletedAreUnique(s: State) {
    forall i: nat :: IsCompleted(s, i) && i < |s.originals| ==> UniquePairs(RowsOfOriginal(s.originals[i]))
  }

  lemma UniqueBefore(s: State, a: Action, batchSize: nat)
    requires |s.db.slots| == |s.originals| && Enabled(s, a) && CompletedAreUnique(Step(s, a, batchSize))
    ensures CompletedAreUnique(s)
    ensures forall i: nat :: Applies(s, a, i) ==> i < |s.originals| && UniquePairs(RowsOfOriginal(s.originals[i]))
  {
    forall i: nat | IsCompleted(s, i) || Applies(s, a, i)
      ensures i < |s.originals| && UniquePairs(RowsOfOriginal(s.originals[i]))
    {
      CompletedStays(s, a, batchSize, i);
    }
  }

  lemma UniqueStep(s: State, a: Action, batchSize: nat)
    requires Inv(s) && Enabled(s, a) && CompletedAreUnique(Step(s, a, batchSize)) && StockIsHistory(s.db, s.originals)
    ensures StockIsHistory(Step(s, a, batchSize).db, Step(s, a, batchSize).originals)
  {
    UniqueBefore(s, a, batchSize);
    UniqueStepAgrees(s, a);
    StepStock(s, a, batchSize);
  }

  /** Whatever the interleaving and the insertion orders have been, a reachable state
      in which no completed original has a repeated pair holds the fold. */
  lemma {:induction false} UniqueCompletedMakeHistory(states: seq<State>, actions: seq<Action>, batchSize: nat, n: nat)
    requires IsRun(states, actions, batchSize) && batchSize >= 1 && n < |states| && CompletedAreUnique(states[n])
    ensures StockIsHistory(states[n].db, states[n].originals)
    decreases n
  {
    if n == 0 {
      EmptyHistory();
    } else {
      RunKeeps(states, actions, batchSize, n - 1);
      RunStep(states, actions, batchSize, n - 1);
      UniqueBefore(states[n - 1], actions[n - 1], batchSize);
      UniqueCompletedMakeHistory(states, actions, batchSize, n - 1);
      UniqueStep(states[n - 1], actions[n - 1], batchSize);
    }
  }

  // ---------------------------------------------------------------------
  // The counters of a completed report
  // ---------------------------------------------------------------------

  function StoredCounters(report: Report): Counters {
    Counters(report.created, report.updated, report.zeroed)
  }

  lemma AppliedCounters(db: Db, i: nat, choices: Choices)
    requires ValidTables(db.tables) && CommitsApply(db, Applying(i), choices, i)
    ensures var after := ApplyReport(db, i, choices).db;
            && i < |after.slots|
            && ExactCounters(db.tables.balances, after.tables.balances, StoredCounters(after.slots[i].report))
            && after.slots[i].report.created + after.slots[i].report.updated <= after.slots[i].report.rowCount
  {
    AppliedTables(db, i, choices);
    CountersExact(db.tables, db.slots[i].staging, choices);
    StoredFrom(db, i, choices);
  }

  lemma StoredFrom(db: Db, i: nat, choices: Choices)
    requires CommitsApply(db, Applying(i), choices, i)
    ensures var report := ApplyReport(db, i, choices).db.slots[i].report;
            && StoredCounters(report) == ApplyStock(db.tables, db.slots[i].staging, choices).counters
            && report.rowCount == |db.slots[i].staging|
  {
  }

  /** In every run, the step that applies a report stores with it the exact difference
      between the balances before and after the step, in whatever order it inserted. */
  lemma StoredCountersExact(states: seq<State>, actions: seq<Action>, batchSize: nat, k: nat, i: nat)
    requires IsRun(states, actions, batchSize) && batchSize >= 1 && k < |actions|
    requires Applies(states[k], actions[k], i)
    ensures var before, after := states[k].db, states[k + 1].db;
            && i < |after.slots| && after.slots[i].report.status == Completed
            && ExactCounters(before.tables.balances, after.tables.balances, StoredCounters(after.slots[i].report))
            && after.slots[i].report.created + after.slots[i].report.updated <= after.slots[i].report.rowCount
  {
    RunKeeps(states, actions, batchSize, k);
    RunStep(states, actions, batchSize, k);
    AppliedCounters(states[k].db, i, actions[k].choices);
    AppliedStep(states[k], actions[k], batchSize, i);
  }

  lemma AppliedStep(s: State, a: Action, batchSize: nat, i: nat)
    requires Enabled(s, a) && Applies(s, a, i)
    ensures Step(s, a, batchSize).db == ApplyReport(s.db, i, a.choices).db
    ensures i < |Step(s, a, batchSize).db.slots| && Step(s, a, batchSize).db.slots[i].report.status == Completed
  {
    ApplyTransacts(s.db, i, s.originals, batchSize, a.choices);
    var c := ApplyShape(s.db, i, a.choices);
  }
}
