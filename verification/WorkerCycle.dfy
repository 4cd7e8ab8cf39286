/** One cycle of the lock holder without faults, as a path of transactions. */
module WorkerCycle {
  import opened CsvValidation
  import opened Batches
  import opened StockTables
  import opened ReportStore
  import opened WorkerProtocol
  import opened WorkerSafety
  import opened ExclusiveRuns
  import opened QueueDrain

  /** The database and the worker's place between two transactions. */
  datatype Point = Point(db: Db, stage: Stage)

  ghost predicate Moves(p: Point, q: Point, originals: seq<Verdict>, batchSize: nat) {
    exists choices ::
      && CanTransact(p.db, p.stage, originals, choices)
      && Transact(p.db, p.stage, originals, batchSize, choices) == (q.db, q.stage)
  }

  ghost predicate Edge(path: seq<Point>, k: nat, originals: seq<Verdict>, batchSize: nat)
    requires k + 1 < |path|
  {
    Moves(path[k], path[k + 1], originals, batchSize)
  }

  ghost predicate IsPath(path: seq<Point>, originals: seq<Verdict>, batchSize: nat) {
    forall k: nat :: k + 1 < |path| ==> Edge(path, k, originals, batchSize)
  }

  ghost predicate Joins(path: seq<Point>, p: Point, q: Point) {
    path != [] && path[0] == p && path[|path| - 1] == q
  }

  /** Transactions of the worker lead from `p` to `q`. */
  ghost predicate Reaches(p: Point, q: Point, originals: seq<Verdict>, batchSize: nat) {
    exists path :: IsPath(path, originals, batchSize) && Joins(path, p, q)
  }

  lemma ReachesItself(p: Point, originals: seq<Verdict>, batchSize: nat)
    ensures Reaches(p, p, originals, batchSize)
  {
    assert IsPath([p], originals, batchSize) && Joins([p], p, p);
  }

  lemma ReachesNext(p: Point, q: Point, r: Point, originals: seq<Verdict>, batchSize: nat)
    requires Reaches(p, q, originals, batchSize) && Moves(q, r, originals, batchSize)
    ensures Reaches(p, r, originals, batchSize)
  {
    var path :| IsPath(path, originals, batchSize) && Joins(path, p, q);
    var longer := path + [r];
    forall k: nat | k + 1 < |longer|
      ensures Edge(longer, k, originals, batchSize)
    {
      if k + 1 < |path| {
        assert Edge(path, k, originals, batchSize);
      }
    }
    assert Joins(longer, p, r);
  }

  // ---------------------------------------------------------------------
  // The decision on a report
  // ---------------------------------------------------------------------

  /** An exception is on its way only for an original whose validation raises, with
      the issues of its batches stored. */
  ghost predicate StageDecided(stage: Stage, slots: seq<Slot>, originals: seq<Verdict>, batchSize: nat) {
    && !stage.ApplyRaisedFor?
    && (stage.ValidationRaised? ==>
          && stage.rid < |originals| && stage.rid < |slots|
          && RaisesHere(slots[stage.rid], originals[stage.rid], batchSize))
  }

  predicate RaisesHere(slot: Slot, v: Verdict, batchSize: nat) {
    v.raised && Unvalidated(slot) && slot.errors == IssuesIn(WritesOf(v, batchSize))
  }

  /** Where a transaction leads. */
  ghost predicate LeadsOn(result: (Db, Stage), originals: seq<Verdict>, batchSize: nat) {
    && Decided(result.0.slots, originals, batchSize)
    && StageDecided(result.1, result.0.slots, originals, batchSize)
  }

  ghost predicate Settled(p: Point, originals: seq<Verdict>, batchSize: nat) {
    && Sound(p.db, p.stage, originals, batchSize)
    && Decided(p.db.slots, originals, batchSize) && StageDecided(p.stage, p.db.slots, originals, batchSize)
  }

  lemma StreamingDecided(i: nat, todo: seq<Write>, slots: seq<Slot>, originals: seq<Verdict>, batchSize: nat)
    requires i < |slots| == |originals| && Unvalidated(slots[i])
    requires StoredUpTo(slots[i], WritesOf(originals[i], batchSize), todo)
    ensures StageDecided(Streaming(i, todo, originals[i].raised), slots, originals, batchSize)
  {
    if todo == [] {
      var writes := WritesOf(originals[i], batchSize);
      assert writes[..|writes|] == writes;
    }
  }

  lemma OneDecided(before: seq<Slot>, after: seq<Slot>, i: nat, originals: seq<Verdict>, batchSize: nat)
    requires Decided(before, originals, batchSize) && ReplacesOne(before, after, i)
    requires DecidedSlot(after[i], originals[i], batchSize)
    ensures Decided(after, originals, batchSize)
  {
  }

  lemma ClaimDecided(db: Db, originals: seq<Verdict>, batchSize: nat, choices: Choices)
    requires Decided(db.slots, originals, batchSize)
    ensures LeadsOn(Transact(db, Holding, originals, batchSize, choices), originals, batchSize)
  {
    if ClaimNext(db.slots).ForValidation? {
      var i := ClaimNext(db.slots).rid;
      var slots := db.slots[i := Restarted(db.slots[i])];
      RestartedStart(db.slots[i], originals[i], batchSize);
      StreamingDecided(i, WritesOf(originals[i], batchSize), slots, originals, batchSize);
      OneDecided(db.slots, slots, i, originals, batchSize);
    }
  }

  lemma BatchDecided(db: Db, i: nat, todo: seq<Write>, originals: seq<Verdict>, batchSize: nat, choices: Choices)
    requires SlotsOk(db.slots, originals) && HolderOk(Validating(i, todo), db.slots, originals, batchSize)
    requires Decided(db.slots, originals, batchSize) && batchSize >= 1
    ensures LeadsOn(Transact(db, Validating(i, todo), originals, batchSize, choices), originals, batchSize)
  {
    if todo == [] {
      StreamingDecided(i, [], db.slots, originals, batchSize);
    } else {
      NoKeyConflict(db.slots[i], originals[i], batchSize, todo);
      NextDecided(db.slots, i, todo, originals, batchSize);
    }
  }

  lemma NextDecided(slots: seq<Slot>, i: nat, todo: seq<Write>, originals: seq<Verdict>, batchSize: nat)
    requires HolderOk(Validating(i, todo), slots, originals, batchSize) && todo != []
    requires Decided(slots, originals, batchSize) && StoreBatch(slots[i], todo[0]).Stored?
    ensures var after := slots[i := StoreBatch(slots[i], todo[0]).slot];
            && Decided(after, originals, batchSize)
            && StageDecided(Streaming(i, todo[1..], originals[i].raised), after, originals, batchSize)
  {
    var slot := StoreBatch(slots[i], todo[0]).slot;
    StoreNext(slots[i], WritesOf(originals[i], batchSize), todo);
    StreamingDecided(i, todo[1..], slots[i := slot], originals, batchSize);
    OneDecided(slots, slots[i := slot], i, originals, batchSize);
  }

  lemma DuplicatesDecided(db: Db, i: nat, originals: seq<Verdict>, batchSize: nat)
    requires Decided(db.slots, originals, batchSize) && i < |db.slots| && Unvalidated(db.slots[i])
    ensures Decided(db.slots[i := StoreDuplicates(db.slots[i])], originals, batchSize)
  {
    OneDecided(db.slots, db.slots[i := StoreDuplicates(db.slots[i])], i, originals, batchSize);
  }

  lemma RejectedIs(slot: Slot, v: Verdict)
    requires Unvalidated(slot) && DuplicatesStored(slot, v)
    ensures RejectedSlot(ValidationFailedSlot(slot, v.rowCount, |slot.errors|), v)
  {
    FailureDeserved(slot, v);
    DeservedFaults(v);
  }

  lemma DecisionDecides(db: Db, i: nat, n: nat, originals: seq<Verdict>, batchSize: nat, choices: Choices)
    requires SlotsOk(db.slots, originals) && HolderOk(Deciding(i, n), db.slots, originals, batchSize)
    requires Decided(db.slots, originals, batchSize)
    ensures LeadsOn(Transact(db, Deciding(i, n), originals, batchSize, choices), originals, batchSize)
  {
    var slot, v := db.slots[i], originals[i];
    NoErrorIffValid(slot, v);
    if n == 0 {
      DecisionNeverRaises(slot, v);
      OneDecided(db.slots, db.slots[i := ValidatedSlot(slot, v.rowCount)], i, originals, batchSize);
    } else {
      RejectedIs(slot, v);
      OneDecided(db.slots, db.slots[i := ValidationFailedSlot(slot, v.rowCount, n)], i, originals, batchSize);
    }
  }

  lemma CompletedIs(slot: Slot, v: Verdict, c: Counters)
    requires Ready(slot) && SlotOk(slot, v)
    ensures AppliedSlot(CompletedSlot(slot, c), v) && ValidOriginal(v)
  {
  }

  lemma ApplyDecides(db: Db, i: nat, originals: seq<Verdict>, batchSize: nat, choices: Choices)
    requires SlotsOk(db.slots, originals) && HolderOk(Applying(i), db.slots, originals, batchSize)
    requires CanTransact(db, Applying(i), originals, choices) && ValidTables(db.tables)
    requires Decided(db.slots, originals, batchSize)
    ensures LeadsOn(Transact(db, Applying(i), originals, batchSize, choices), originals, batchSize)
  {
    ApplyNeverRaises(db, i, choices, originals[i]);
    ApplyTransacts(db, i, originals, batchSize, choices);
    var c := ApplyShape(db, i, choices);
    CompletedIs(db.slots[i], originals[i], c);
    OneDecided(db.slots, db.slots[i := CompletedSlot(db.slots[i], c)], i, originals, batchSize);
  }

  lemma RaisedIs(slot: Slot, v: Verdict, batchSize: nat)
    requires RaisesHere(slot, v, batchSize)
    ensures RaisedSlot(FailedSlot(slot, ProcessingError), v, batchSize)
  {
  }

  lemma FailureDecides(db: Db, i: nat, originals: seq<Verdict>, batchSize: nat)
    requires Decided(db.slots, originals, batchSize) && i < |db.slots| && i < |originals|
    requires RaisesHere(db.slots[i], originals[i], batchSize)
    ensures Decided(db.slots[i := FailedSlot(db.slots[i], ProcessingError)], originals, batchSize)
  {
    RaisedIs(db.slots[i], originals[i], batchSize);
    OneDecided(db.slots, db.slots[i := FailedSlot(db.slots[i], ProcessingError)], i, originals, batchSize);
  }

  lemma StepDecides(db: Db, stage: Stage, originals: seq<Verdict>, batchSize: nat, choices: Choices)
    requires SlotsOk(db.slots, originals) && HolderOk(stage, db.slots, originals, batchSize)
    requires RaisedOpen(stage, db.slots)
    requires Decided(db.slots, originals, batchSize) && StageDecided(stage, db.slots, originals, batchSize)
    requires CanTransact(db, stage, originals, choices) && ValidTables(db.tables) && batchSize >= 1
    ensures LeadsOn(Transact(db, stage, originals, batchSize, choices), originals, batchSize)
  {
    match stage
    case Holding => ClaimDecided(db, originals, batchSize, choices);
    case Validating(i, todo) => BatchDecided(db, i, todo, originals, batchSize, choices);
    case CheckingDuplicates(i) => DuplicatesDecided(db, i, originals, batchSize);
    case CountingErrors(i) =>
    case Deciding(i, n) => DecisionDecides(db, i, n, originals, batchSize, choices);
    case Applying(i) => ApplyDecides(db, i, originals, batchSize, choices);
    case ValidationRaised(i) => FailureDecides(db, i, originals, batchSize);
  }

  // ---------------------------------------------------------------------
  // Paths
  // ---------------------------------------------------------------------

  lemma MoveSettles(p: Point, q: Point, originals: seq<Verdict>, batchSize: nat)
    requires Settled(p, originals, batchSize) && Moves(p, q, originals, batchSize) && batchSize >= 1
    ensures Settled(q, originals, batchSize) && TotalRank(q.db.slots) <= TotalRank(p.db.slots)
    ensures HasReport(p.stage) && q.stage.Done? ==> TotalRank(q.db.slots) < TotalRank(p.db.slots)
  {
    var choices :| CanTransact(p.db, p.stage, originals, choices)
               && Transact(p.db, p.stage, originals, batchSize, choices) == (q.db, q.stage);
    SoundStep(p.db, p.stage, originals, batchSize, choices);
    StepDecides(p.db, p.stage, originals, batchSize, choices);
  }

  /** The worker goes on with the same report until it is done. */
  lemma StageMoves(db: Db, stage: Stage, originals: seq<Verdict>, batchSize: nat, choices: Choices)
    requires CanTransact(db, stage, originals, choices)
    ensures var next := Transact(db, stage, originals, batchSize, choices).1;
            next.Done? || (HasReport(next) && (HasReport(stage) ==> next.rid == stage.rid))
  {
    match stage
    case Holding =>
    case Validating(i, todo) =>
    case Applying(i) => ApplyTransacts(db, i, originals, batchSize, choices);
    case _ =>
  }

  lemma MovesOn(p: Point, q: Point, originals: seq<Verdict>, batchSize: nat)
    requires Moves(p, q, originals, batchSize)
    ensures !p.stage.Done? && (HasReport(q.stage) || q.stage.Done?)
    ensures |q.db.slots| == |p.db.slots|
  {
    var choices :| CanTransact(p.db, p.stage, originals, choices)
               && Transact(p.db, p.stage, originals, batchSize, choices) == (q.db, q.stage);
    TransactTables(p.db, p.stage, originals, batchSize, choices);
    StageMoves(p.db, p.stage, originals, batchSize, choices);
  }

  lemma TailIsPath(path: seq<Point>, originals: seq<Verdict>, batchSize: nat)
    requires path != [] && IsPath(path, originals, batchSize)
    ensures IsPath(path[1..], originals, batchSize)
  {
    var rest := path[1..];
    forall k: nat | k + 1 < |rest|
      ensures Edge(rest, k, originals, batchSize)
    {
      assert Edge(path, k + 1, originals, batchSize);
    }
  }

  lemma {:induction false} PathSettles(path: seq<Point>, originals: seq<Verdict>, batchSize: nat)
    requires path != [] && IsPath(path, originals, batchSize) && batchSize >= 1
    requires Settled(path[0], originals, batchSize)
    ensures var first, last := path[0], path[|path| - 1];
            && Settled(last, originals, batchSize)
            && TotalRank(last.db.slots) <= TotalRank(first.db.slots)
            && (HasReport(first.stage) && last.stage.Done? ==> TotalRank(last.db.slots) < TotalRank(first.db.slots))
  {
    if |path| > 1 {
      assert Edge(path, 0, originals, batchSize);
      MoveSettles(path[0], path[1], originals, batchSize);
      MovesOn(path[0], path[1], originals, batchSize);
      TailIsPath(path, originals, batchSize);
      PathSettles(path[1..], originals, batchSize);
    }
  }

  /** All a worker reaches without faults is settled: closed reports are completed
      just when their original is valid, the stock is the history, no rank has
      risen, and a report that was worked on to the end has come closer to it. */
  lemma ReachesSettles(p: Point, q: Point, originals: seq<Verdict>, batchSize: nat)
    requires Reaches(p, q, originals, batchSize) && Settled(p, originals, batchSize) && batchSize >= 1
    ensures Settled(q, originals, batchSize) && TotalRank(q.db.slots) <= TotalRank(p.db.slots)
    ensures HasReport(p.stage) && q.stage.Done? ==> TotalRank(q.db.slots) < TotalRank(p.db.slots)
  {
    var path :| IsPath(path, originals, batchSize) && Joins(path, p, q);
    PathSettles(path, originals, batchSize);
  }

  lemma ReachesFrom(p: Point, q: Point, r: Point, originals: seq<Verdict>, batchSize: nat)
    requires Moves(p, q, originals, batchSize) && Reaches(q, r, originals, batchSize)
    ensures Reaches(p, r, originals, batchSize)
  {
    var path :| IsPath(path, originals, batchSize) && Joins(path, q, r);
    var longer := [p] + path;
    forall k: nat | k + 1 < |longer|
      ensures Edge(longer, k, originals, batchSize)
    {
      if k > 0 {
        assert Edge(path, k - 1, originals, batchSize);
      }
    }
    assert Joins(longer, p, r);
  }

  lemma FirstMove(p: Point, r: Point, originals: seq<Verdict>, batchSize: nat) returns (q: Point)
    requires Reaches(p, r, originals, batchSize) && p != r
    ensures Moves(p, q, originals, batchSize) && Reaches(q, r, originals, batchSize)
  {
    var path :| IsPath(path, originals, batchSize) && Joins(path, p, r);
    assert Edge(path, 0, originals, batchSize);
    q := path[1];
    TailIsPath(path, originals, batchSize);
    assert Joins(path[1..], q, r);
  }

  lemma NothingOpen(slots: seq<Slot>)
    ensures ClaimNext(slots).NoReport? <==> TotalRank(slots) == 0
  {
    RankBound(slots);
  }

  lemma HoldingSettled(db: Db, originals: seq<Verdict>, batchSize: nat)
    requires Settled(Point(db, Done), originals, batchSize)
    ensures Settled(Point(db, Holding), originals, batchSize)
  {
  }

  lemma ClaimFinds(db: Db, q: Point, originals: seq<Verdict>, batchSize: nat)
    requires Moves(Point(db, Holding), q, originals, batchSize)
    ensures q.stage.Done? <==> ClaimNext(db.slots).NoReport?
    ensures q.stage.Done? ==> q.db == db
    ensures q.stage.Done? || HasReport(q.stage)
  {
    var choices :| CanTransact(db, Holding, originals, choices)
               && Transact(db, Holding, originals, batchSize, choices) == (q.db, q.stage);
    ClaimRanks(db, originals, batchSize, choices);
  }

  lemma DoneStays(q: Point, r: Point, originals: seq<Verdict>, batchSize: nat)
    requires Reaches(q, r, originals, batchSize) && q.stage.Done?
    ensures r == q
  {
    if r != q {
      var next := FirstMove(q, r, originals, batchSize);
      MovesOn(q, next, originals, batchSize);
    }
  }

  /** A whole cycle without faults leaves everything settled. On a queue with an
      open report it brings the queue closer to being drained, else it changes
      nothing. */
  lemma CycleSettles(before: Db, after: Db, originals: seq<Verdict>, batchSize: nat)
    requires Settled(Point(before, Done), originals, batchSize) && batchSize >= 1
    requires Reaches(Point(before, Holding), Point(after, Done), originals, batchSize)
    ensures Settled(Point(after, Done), originals, batchSize)
    ensures TotalRank(before.slots) == 0 <==> ClaimNext(before.slots).NoReport?
    ensures TotalRank(before.slots) == 0 ==> after == before
    ensures TotalRank(before.slots) > 0 ==> TotalRank(after.slots) < TotalRank(before.slots)
  {
    var q := FirstMove(Point(before, Holding), Point(after, Done), originals, batchSize);
    NothingOpen(before.slots);
    HoldingSettled(before, originals, batchSize);
    MoveSettles(Point(before, Holding), q, originals, batchSize);
    ClaimFinds(before, q, originals, batchSize);
    if q.stage.Done? {
      DoneStays(q, Point(after, Done), originals, batchSize);
    } else {
      ReachesSettles(q, Point(after, Done), originals, batchSize);
    }
  }

  // ---------------------------------------------------------------------
  // The outcome of a cycle
  // ---------------------------------------------------------------------

  datatype Outcome = NoReportOutcome | ValidatedOutcome | ValidationFailed | ProcessingFailed | CompletedOutcome

  /** What a worker reports whose last transaction was made at `stage`. */
  function OutcomeAt(stage: Stage): Outcome {
    match stage
    case Deciding(_, n) => if n > 0 then ValidationFailed else ValidatedOutcome
    case Applying(_) => CompletedOutcome
    case ValidationRaised(_) => ProcessingFailed
    case ApplyRaisedFor(_) => ProcessingFailed
    case _ => NoReportOutcome
  }

  /** `last` is where the worker stands before its last transaction. */
  ghost predicate Ends(p: Point, last: Point, q: Point, outcome: Outcome, originals: seq<Verdict>, batchSize: nat) {
    && Reaches(p, last, originals, batchSize) && Moves(last, q, originals, batchSize)
    && q.stage.Done? && outcome == OutcomeAt(last.stage)
  }

  lemma EndsReaches(p: Point, last: Point, q: Point, outcome: Outcome, originals: seq<Verdict>, batchSize: nat)
    requires Ends(p, last, q, outcome, originals, batchSize)
    ensures Reaches(p, q, originals, batchSize)
  {
    ReachesNext(p, last, q, originals, batchSize);
  }

  lemma EndsFrom(p: Point, q: Point, last: Point, r: Point, outcome: Outcome, originals: seq<Verdict>, batchSize: nat)
    requires Moves(p, q, originals, batchSize) && Ends(q, last, r, outcome, originals, batchSize)
    ensures Ends(p, last, r, outcome, originals, batchSize)
  {
    ReachesFrom(p, q, last, originals, batchSize);
  }

  /** What the outcome says about the report worked on. */
  ghost predicate Tells(outcome: Outcome, slot: Slot, v: Verdict, batchSize: nat) {
    match outcome
    case NoReportOutcome => false
    case ValidatedOutcome => Ready(slot) && slot.report.rowCount == v.rowCount
    case ValidationFailed => RejectedSlot(slot, v)
    case ProcessingFailed => RaisedSlot(slot, v, batchSize)
    case CompletedOutcome => AppliedSlot(slot, v)
  }

  /** The outcome of the transaction at `stage` if it is the last one. */
  ghost predicate LastSays(result: (Db, Stage), stage: Stage, originals: seq<Verdict>, batchSize: nat)
    requires HasReport(stage)
  {
    result.1.Done? ==>
      && stage.rid < |result.0.slots| && stage.rid < |originals|
      && Tells(OutcomeAt(stage), result.0.slots[stage.rid], originals[stage.rid], batchSize)
  }

  lemma DecisionTells(db: Db, i: nat, n: nat, originals: seq<Verdict>, batchSize: nat, choices: Choices)
    requires SlotsOk(db.slots, originals) && HolderOk(Deciding(i, n), db.slots, originals, batchSize)
    ensures LastSays(Transact(db, Deciding(i, n), originals, batchSize, choices), Deciding(i, n), originals, batchSize)
  {
    var slot, v := db.slots[i], originals[i];
    NoErrorIffValid(slot, v);
    if n == 0 {
      DecisionNeverRaises(slot, v);
      CleanByCount(v);
      assert Ready(ValidatedSlot(slot, v.rowCount));
    } else {
      RejectedIs(slot, v);
    }
  }

  lemma ApplyTells(db: Db, i: nat, originals: seq<Verdict>, batchSize: nat, choices: Choices)
    requires SlotsOk(db.slots, originals) && HolderOk(Applying(i), db.slots, originals, batchSize)
    requires CanTransact(db, Applying(i), originals, choices)
    ensures LastSays(Transact(db, Applying(i), originals, batchSize, choices), Applying(i), originals, batchSize)
  {
    ApplyTransacts(db, i, originals, batchSize, choices);
    if ApplyReport(db, i, choices).ApplyCommitted? {
      var c := ApplyShape(db, i, choices);
      CompletedIs(db.slots[i], originals[i], c);
      ApplySays(ApplyReport(db, i, choices).db, i, originals, batchSize);
    }
  }

  lemma ApplySays(after: Db, i: nat, originals: seq<Verdict>, batchSize: nat)
    requires i < |after.slots| && i < |originals| && AppliedSlot(after.slots[i], originals[i])
    ensures LastSays((after, Done), Applying(i), originals, batchSize)
  {
  }

  lemma LastTells(last: Point, q: Point, originals: seq<Verdict>, batchSize: nat)
    requires Settled(last, originals, batchSize) && Moves(last, q, originals, batchSize)
    requires HasReport(last.stage) && q.stage.Done?
    ensures LastSays((q.db, q.stage), last.stage, originals, batchSize)
  {
    var choices :| CanTransact(last.db, last.stage, originals, choices)
               && Transact(last.db, last.stage, originals, batchSize, choices) == (q.db, q.stage);
    StageTells(last.db, last.stage, originals, batchSize, choices);
  }

  lemma StageTells(db: Db, stage: Stage, originals: seq<Verdict>, batchSize: nat, choices: Choices)
    requires SlotsOk(db.slots, originals) && HolderOk(stage, db.slots, originals, batchSize)
    requires StageDecided(stage, db.slots, originals, batchSize)
    requires CanTransact(db, stage, originals, choices) && HasReport(stage)
    ensures LastSays(Transact(db, stage, originals, batchSize, choices), stage, originals, batchSize)
  {
    match stage
    case Validating(i, todo) =>
    case CheckingDuplicates(i) =>
    case CountingErrors(i) =>
    case Deciding(i, n) => DecisionTells(db, i, n, originals, batchSize, choices);
    case Applying(i) => ApplyTells(db, i, originals, batchSize, choices);
    case ValidationRaised(i) => RaisedIs(db.slots[i], originals[i], batchSize);
  }

  lemma SameReport(p: Point, q: Point, originals: seq<Verdict>, batchSize: nat)
    requires Moves(p, q, originals, batchSize) && HasReport(p.stage)
    ensures q.stage.Done? || (HasReport(q.stage) && q.stage.rid == p.stage.rid)
  {
    var choices :| CanTransact(p.db, p.stage, originals, choices)
               && Transact(p.db, p.stage, originals, batchSize, choices) == (q.db, q.stage);
    StageMoves(p.db, p.stage, originals, batchSize, choices);
  }

  lemma {:induction false} PathKeepsReport(path: seq<Point>, originals: seq<Verdict>, batchSize: nat)
    requires path != [] && IsPath(path, originals, batchSize) && HasReport(path[0].stage)
    ensures var last := path[|path| - 1].stage; last.Done? || (HasReport(last) && last.rid == path[0].stage.rid)
  {
    if |path| > 1 {
      assert Edge(path, 0, originals, batchSize);
      SameReport(path[0], path[1], originals, batchSize);
      TailIsPath(path, originals, batchSize);
      if path[1].stage.Done? {
        assert Joins(path[1..], path[1], path[|path| - 1]);
        DoneStays(path[1], path[|path| - 1], originals, batchSize);
      } else {
        PathKeepsReport(path[1..], originals, batchSize);
      }
    }
  }

  lemma ClaimedReport(db: Db, q: Point, originals: seq<Verdict>, batchSize: nat)
    requires Moves(Point(db, Holding), q, originals, batchSize) && !ClaimNext(db.slots).NoReport?
    ensures HasReport(q.stage) && q.stage.rid == ClaimNext(db.slots).rid
  {
    var choices :| CanTransact(db, Holding, originals, choices)
               && Transact(db, Holding, originals, batchSize, choices) == (q.db, q.stage);
  }

  /** The outcome of a cycle is what is stored for the report it claimed. */
  lemma OutcomeTells(before: Db, last: Point, after: Db, outcome: Outcome, originals: seq<Verdict>, batchSize: nat)
    requires Settled(Point(before, Done), originals, batchSize) && batchSize >= 1
    requires Ends(Point(before, Holding), last, Point(after, Done), outcome, originals, batchSize)
    ensures outcome.NoReportOutcome? <==> ClaimNext(before.slots).NoReport?
    ensures !outcome.NoReportOutcome? ==>
              var i := ClaimNext(before.slots).rid;
              && i < |after.slots| && i < |originals|
              && Tells(outcome, after.slots[i], originals[i], batchSize)
  {
    HoldingSettled(before, originals, batchSize);
    ReachesSettles(Point(before, Holding), last, originals, batchSize);
    if last == Point(before, Holding) {
      ClaimFinds(before, Point(after, Done), originals, batchSize);
    } else {
      var q := FirstMove(Point(before, Holding), last, originals, batchSize);
      LastHasReport(last, Point(after, Done), originals, batchSize);
      ClaimFinds(before, q, originals, batchSize);
      if q.stage.Done? {
        DoneStays(q, last, originals, batchSize);
      } else {
        ClaimedReport(before, q, originals, batchSize);
        var path :| IsPath(path, originals, batchSize) && Joins(path, q, last);
        PathKeepsReport(path, originals, batchSize);
        LastTells(last, Point(after, Done), originals, batchSize);
      }
    }
  }

  lemma LastHasReport(last: Point, q: Point, originals: seq<Verdict>, batchSize: nat)
    requires Moves(last, q, originals, batchSize)
    ensures !last.stage.Done?
  {
    MovesOn(last, q, originals, batchSize);
  }
}
