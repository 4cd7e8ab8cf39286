/** The worker's program on the database, and the loop that drains the queue. */
module ReportProcessing {
  import opened Common
  import opened CsvSplitter
  import opened CsvValidation
  import opened CsvAccounting
  import opened Batches
  import opened SnapshotModel
  import opened StockTables
  import opened ReportStore
  import opened ReportDatabase
  import opened WorkerProtocol
  import opened WorkerSafety
  import opened StockHistory
  import opened ExclusiveRuns
  import opened QueueDrain
  import opened WorkerCycle
  import opened RunSegments

  /** An original as it is downloaded: decoded text in pieces. */
  type Original = seq<Text>

  function VerdictsOf(objects: seq<Original>, lim: Limits): seq<Verdict> {
    seq(|objects|, i requires 0 <= i < |objects| => Validate(Received(objects[i]), lim))
  }

  // ---------------------------------------------------------------------
  // What a statement sequence is in the protocol
  // ---------------------------------------------------------------------

  const NO_CHOICES: Choices := Choices(map[], map[], [])

  function ClaimStage(claim: Claim, originals: seq<Verdict>, batchSize: nat): Stage
    requires !claim.NoReport? ==> claim.rid < |originals|
  {
    match claim
    case NoReport => Done
    case ForApply(i) => Applying(i)
    case ForValidation(i) => StartOf(i, originals[i], batchSize)
  }

  lemma ClaimMoves(db: Db, after: seq<Slot>, claim: Claim, originals: seq<Verdict>, batchSize: nat)
    requires |db.slots| == |originals| && claim == ClaimNext(db.slots)
    requires after == if claim.ForValidation? then db.slots[claim.rid := Restarted(db.slots[claim.rid])] else db.slots
    ensures Moves(Point(db, Holding), Point(Db(after, db.tables), ClaimStage(claim, originals, batchSize)),
                  originals, batchSize)
  {
    assert CanTransact(db, Holding, originals, NO_CHOICES);
  }

  lemma BatchMoves(db: Db, after: seq<Slot>, i: nat, todo: seq<Write>, stored: bool,
                   originals: seq<Verdict>, batchSize: nat)
    requires |db.slots| == |originals| && i < |db.slots| && todo != []
    requires stored == StoreBatch(db.slots[i], todo[0]).Stored?
    requires after == if stored then db.slots[i := StoreBatch(db.slots[i], todo[0]).slot] else db.slots
    ensures Moves(Point(db, Validating(i, todo)),
                  Point(Db(after, db.tables),
                        if stored then Streaming(i, todo[1..], originals[i].raised) else ValidationRaised(i)),
                  originals, batchSize)
  {
    assert CanTransact(db, Validating(i, todo), originals, NO_CHOICES);
  }

  lemma DuplicatesMove(db: Db, i: nat, originals: seq<Verdict>, batchSize: nat)
    requires |db.slots| == |originals| && i < |db.slots|
    ensures Moves(Point(db, CheckingDuplicates(i)),
                  Point(Db(db.slots[i := StoreDuplicates(db.slots[i])], db.tables), CountingErrors(i)),
                  originals, batchSize)
  {
    assert CanTransact(db, CheckingDuplicates(i), originals, NO_CHOICES);
  }

  lemma CountMoves(db: Db, i: nat, originals: seq<Verdict>, batchSize: nat)
    requires |db.slots| == |originals| && i < |db.slots|
    ensures Moves(Point(db, CountingErrors(i)), Point(db, Deciding(i, |db.slots[i].errors|)), originals, batchSize)
  {
    assert CanTransact(db, CountingErrors(i), originals, NO_CHOICES);
  }

  lemma DecisionMoves(db: Db, after: seq<Slot>, i: nat, n: nat, raised: bool, originals: seq<Verdict>, batchSize: nat)
    requires |db.slots| == |originals| && i < |db.slots|
    requires raised == (n == 0 && (!originals[i].reachedEof || originals[i].rowCount == 0))
    requires after == if n > 0 then db.slots[i := ValidationFailedSlot(db.slots[i], originals[i].rowCount, n)]
                      else if raised then db.slots
                      else db.slots[i := ValidatedSlot(db.slots[i], originals[i].rowCount)]
    ensures Moves(Point(db, Deciding(i, n)),
                  Point(Db(after, db.tables), if raised then ValidationRaised(i) else Done), originals, batchSize)
  {
    assert CanTransact(db, Deciding(i, n), originals, NO_CHOICES);
  }

  function FailureStage(i: nat, code: IssueCode): Stage {
    if code == ApplyError then ApplyRaisedFor(i) else ValidationRaised(i)
  }

  lemma FailureMoves(db: Db, i: nat, code: IssueCode, originals: seq<Verdict>, batchSize: nat)
    requires |db.slots| == |originals| && i < |db.slots| && code in {ProcessingError, ApplyError}
    ensures Moves(Point(db, FailureStage(i, code)),
                  Point(Db(db.slots[i := FailedSlot(db.slots[i], code)], db.tables), Done), originals, batchSize)
  {
    assert CanTransact(db, FailureStage(i, code), originals, NO_CHOICES);
  }

  lemma ApplyMoves(db: Db, after: Db, i: nat, committed: bool, choices: Choices, originals: seq<Verdict>,
                   batchSize: nat)
    requires |db.slots| == |originals| && i < |db.slots|
    requires CanChoose(db.tables, db.slots[i].staging, choices)
    requires committed == ApplyReport(db, i, choices).ApplyCommitted?
    requires after == if committed then ApplyReport(db, i, choices).db else db
    ensures Moves(Point(db, Applying(i)), Point(after, if committed then Done else ApplyRaisedFor(i)),
                  originals, batchSize)
  {
    assert CanTransact(db, Applying(i), originals, choices);
  }

  function Registered(db: Db): Db {
    db.(slots := db.slots + [NEW_REPORT])
  }

  lemma ApplyAttempted(db: Db, after: Db, i: nat, committed: bool, choices: Choices, originals: seq<Verdict>,
                       batchSize: nat)
    requires |db.slots| == |originals| && i < |db.slots|
    requires CanChoose(db.tables, db.slots[i].staging, choices)
    requires committed == ApplyReport(db, i, choices).ApplyCommitted?
    requires after == if committed then ApplyReport(db, i, choices).db else db
    ensures var start := Point(db, Applying(i));
            if committed then Ends(start, start, Point(after, Done), CompletedOutcome, originals, batchSize)
            else Reaches(start, Point(after, ApplyRaisedFor(i)), originals, batchSize)
  {
    ApplyMoves(db, after, i, committed, choices, originals, batchSize);
    AfterApply(Point(db, Applying(i)), after, i, committed, originals, batchSize);
  }

  lemma AfterApply(start: Point, after: Db, i: nat, committed: bool, originals: seq<Verdict>, batchSize: nat)
    requires start.stage == Applying(i)
    requires Moves(start, Point(after, if committed then Done else ApplyRaisedFor(i)), originals, batchSize)
    ensures if committed then Ends(start, start, Point(after, Done), CompletedOutcome, originals, batchSize)
            else Reaches(start, Point(after, ApplyRaisedFor(i)), originals, batchSize)
  {
    ReachesItself(start, originals, batchSize);
    if !committed {
      ReachesNext(start, start, Point(after, ApplyRaisedFor(i)), originals, batchSize);
    }
  }

  /** A validation attempt ended, or an exception is on its way. */
  ghost predicate Attempted(start: Point, last: Point, db: Db, i: nat, result: Option<Outcome>,
                            originals: seq<Verdict>, batchSize: nat) {
    match result
    case Some(outcome) =>
      Ends(start, last, Point(db, Done), outcome, originals, batchSize) && !outcome.NoReportOutcome?
    case None => Reaches(start, Point(db, ValidationRaised(i)), originals, batchSize)
  }

  lemma DecisionAttempted(start: Point, db: Db, after: seq<Slot>, i: nat, n: nat, result: Option<Outcome>,
                          originals: seq<Verdict>, batchSize: nat)
    requires |db.slots| == |originals| && i < |db.slots|
    requires Reaches(start, Point(db, Deciding(i, n)), originals, batchSize)
    requires result == if n > 0 then Some(ValidationFailed)
                       else if !originals[i].reachedEof || originals[i].rowCount == 0 then None
                       else Some(ValidatedOutcome)
    requires after == if n > 0 then db.slots[i := ValidationFailedSlot(db.slots[i], originals[i].rowCount, n)]
                      else if result.None? then db.slots
                      else db.slots[i := ValidatedSlot(db.slots[i], originals[i].rowCount)]
    ensures Attempted(start, Point(db, Deciding(i, n)), Db(after, db.tables), i, result, originals, batchSize)
  {
    DecisionMoves(db, after, i, n, result.None?, originals, batchSize);
    if result.None? {
      ReachesNext(start, Point(db, Deciding(i, n)), Point(Db(after, db.tables), ValidationRaised(i)),
                  originals, batchSize);
    }
  }

  lemma FailureEnds(start: Point, db: Db, i: nat, code: IssueCode, originals: seq<Verdict>, batchSize: nat)
    requires |db.slots| == |originals| && i < |db.slots| && code in {ProcessingError, ApplyError}
    requires Reaches(start, Point(db, FailureStage(i, code)), originals, batchSize)
    ensures Ends(start, Point(db, FailureStage(i, code)),
                 Point(Db(db.slots[i := FailedSlot(db.slots[i], code)], db.tables), Done),
                 ProcessingFailed, originals, batchSize)
  {
    FailureMoves(db, i, code, originals, batchSize);
  }

  // ---------------------------------------------------------------------
  // The program
  // ---------------------------------------------------------------------

  class ReportProcessor {
    const database: Database
    const limits: Limits
    const batchSize: nat
    /** The object storage; originals are never changed. */
    var objects: seq<Original>

    ghost predicate Valid()
      reads this, database
    {
      database.Valid() && |objects| == |database.reports| && batchSize >= 1
    }

    ghost function Originals(): seq<Verdict>
      reads `objects
    {
      VerdictsOf(objects, limits)
    }

    ghost function At(stage: Stage): Point
      reads database
    {
      Point(database.Contents(), stage)
    }

    constructor (limits: Limits, batchSize: nat)
      requires batchSize >= 1
      ensures Valid() && fresh(database) && objects == []
      ensures this.limits == limits && this.batchSize == batchSize
      ensures database.Contents() == Db([], EMPTY_TABLES)
    {
      this.limits, this.batchSize := limits, batchSize;
      database := new Database();
      objects := [];
    }

    /** The batches of the stream in order, up to a key conflict. */
    method WriteBatches(i: nat, writes: seq<Write>, raised: bool) returns (stored: bool)
      requires Valid() && i < |objects| && raised == Originals()[i].raised
      modifies database
      ensures Valid()
      ensures Reaches(old(At(Streaming(i, writes, raised))),
                      At(if stored then Streaming(i, [], raised) else ValidationRaised(i)), Originals(), batchSize)
    {
      ghost var start, originals := At(Streaming(i, writes, raised)), Originals();
      ReachesItself(start, originals, batchSize);
      assert writes[0..] == writes;
      for k := 0 to |writes|
        invariant Valid()
        invariant Reaches(start, At(Streaming(i, writes[k..], raised)), originals, batchSize)
      {
        ghost var before := database.Contents();
        stored := database.WriteBatch(i, writes[k]);
        assert writes[k..][0] == writes[k] && writes[k..][1..] == writes[k + 1..];
        BatchMoves(before, database.Slots(), i, writes[k..], stored, originals, batchSize);
        ReachesNext(start, Point(before, Validating(i, writes[k..])),
                    At(if stored then Streaming(i, writes[k + 1..], raised) else ValidationRaised(i)),
                    originals, batchSize);
        if !stored {
          return;
        }
      }
      stored := true;
    }

    /** What follows the stream; `None` when it raises. */
    method Conclude(i: nat, v: Verdict, ghost start: Point) returns (result: Option<Outcome>, ghost last: Point)
      requires Valid() && i < |objects| && v == Originals()[i]
      requires Reaches(start, At(CheckingDuplicates(i)), Originals(), batchSize)
      modifies database
      ensures Valid() && Attempted(start, last, database.Contents(), i, result, Originals(), batchSize)
    {
      ghost var before := database.Contents();
      database.InsertDuplicateErrors(i);
      DuplicatesMove(before, i, Originals(), batchSize);
      ReachesNext(start, Point(before, CheckingDuplicates(i)), At(CountingErrors(i)), Originals(), batchSize);
      var errorCount := database.CountErrors(i);
      CountMoves(database.Contents(), i, Originals(), batchSize);
      ReachesNext(start, At(CountingErrors(i)), At(Deciding(i, errorCount)), Originals(), batchSize);
      result, last := Decide(i, v, errorCount, start);
    }

    method Decide(i: nat, v: Verdict, errorCount: nat, ghost start: Point)
      returns (result: Option<Outcome>, ghost last: Point)
      requires Valid() && i < |objects| && v == Originals()[i]
      requires Reaches(start, At(Deciding(i, errorCount)), Originals(), batchSize)
      modifies database
      ensures Valid() && Attempted(start, last, database.Contents(), i, result, Originals(), batchSize)
    {
      last := At(Deciding(i, errorCount));
      if errorCount > 0 {
        database.FinalizeValidationFailure(i, v.rowCount, errorCount);
        result := Some(ValidationFailed);
      } else if !v.reachedEof || v.rowCount == 0 {
        result := None;
      } else {
        database.FinalizeValidation(i, v.rowCount);
        result := Some(ValidatedOutcome);
      }
      DecisionAttempted(start, last.db, database.Slots(), i, errorCount, result, Originals(), batchSize);
    }

    /** Validation of a claimed report; `None` when it raises. */
    method ValidateReport(i: nat) returns (result: Option<Outcome>, ghost last: Point)
      requires Valid() && i < |objects|
      modifies database
      ensures Valid()
      ensures Attempted(old(At(StartOf(i, Originals()[i], batchSize))), last, database.Contents(), i, result,
                        Originals(), batchSize)
    {
      ghost var start := At(StartOf(i, Originals()[i], batchSize));
      last := start;
      var v := ValidateCsvStream(objects[i], limits);
      var writes := WriteVerdict(v, batchSize);
      var stored := WriteBatches(i, writes, v.raised);
      if !stored || v.raised {
        return None, last;
      }
      result, last := Conclude(i, v, start);
    }

    method MarkFailed(i: nat, code: IssueCode, ghost start: Point) returns (ghost last: Point)
      requires Valid() && i < |objects| && code in {ProcessingError, ApplyError}
      requires Reaches(start, At(FailureStage(i, code)), Originals(), batchSize)
      modifies database
      ensures Valid() && Ends(start, last, At(Done), ProcessingFailed, Originals(), batchSize)
    {
      last := At(FailureStage(i, code));
      if code == ApplyError {
        database.MarkApplyFailed(i);
      } else {
        database.MarkProcessingFailed(i);
      }
      FailureEnds(start, last.db, i, code, Originals(), batchSize);
    }

    method ApplyClaimed(i: nat, ghost start: Point) returns (outcome: Outcome, ghost last: Point)
      requires Valid() && i < |objects| && start == At(Applying(i))
      modifies database
      ensures Valid() && Ends(start, last, At(Done), outcome, Originals(), batchSize)
      ensures !outcome.NoReportOutcome?
    {
      last := start;
      var committed;
      ghost var choices;
      committed, choices := database.Apply(i);
      ApplyAttempted(start.db, database.Contents(), i, committed, choices, Originals(), batchSize);
      if committed {
        return CompletedOutcome, last;
      }
      last := MarkFailed(i, ApplyError, start);
      outcome := ProcessingFailed;
    }

    method ValidateClaimed(i: nat, ghost start: Point) returns (outcome: Outcome, ghost last: Point)
      requires Valid() && i < |objects| && start == At(StartOf(i, Originals()[i], batchSize))
      modifies database
      ensures Valid() && Ends(start, last, At(Done), outcome, Originals(), batchSize)
      ensures !outcome.NoReportOutcome?
    {
      var result;
      result, last := ValidateReport(i);
      if result.Some? {
        return result.value, last;
      }
      last := MarkFailed(i, ProcessingError, start);
      outcome := ProcessingFailed;
    }

    method Work(claim: Claim, ghost start: Point) returns (outcome: Outcome, ghost last: Point)
      requires Valid() && !claim.NoReport? && claim.rid < |objects|
      requires start == At(ClaimStage(claim, Originals(), batchSize))
      modifies database
      ensures Valid() && Ends(start, last, At(Done), outcome, Originals(), batchSize)
      ensures !outcome.NoReportOutcome?
    {
      if claim.ForApply? {
        outcome, last := ApplyClaimed(claim.rid, start);
      } else {
        outcome, last := ValidateClaimed(claim.rid, start);
      }
    }

    /** One cycle with the lock held. */
    method Process() returns (outcome: Outcome, ghost last: Point)
      requires Valid()
      modifies database
      ensures Valid() && Ends(old(At(Holding)), last, At(Done), outcome, Originals(), batchSize)
      ensures outcome.NoReportOutcome? <==> ClaimNext(old(database.Slots())).NoReport?
    {
      ghost var before := At(Holding);
      last := before;
      var claim := database.ClaimOrRecover();
      ghost var start := At(ClaimStage(claim, Originals(), batchSize));
      ClaimMoves(before.db, database.Slots(), claim, Originals(), batchSize);
      if claim.NoReport? {
        ReachesItself(before, Originals(), batchSize);
        return NoReportOutcome, last;
      }
      outcome, last := Work(claim, start);
      EndsFrom(before, start, last, At(Done), outcome, Originals(), batchSize);
    }

    /** A new original is stored and its report put at the end of the queue. */
    method Register(original: Original)
      requires Valid()
      modifies this`objects, database
      ensures Valid() && objects == old(objects) + [original]
      ensures Originals() == old(Originals()) + [Validate(Received(original), limits)]
      ensures database.Contents() == old(Registered(database.Contents()))
    {
      VerdictsGrow(objects, original, limits);
      objects := objects + [original];
      database.InsertReport();
    }

    ghost predicate InOrder()
      reads this, database
    {
      Orderly(database.Contents(), Originals(), batchSize)
    }

    /** A cycle as a step towards the drained queue, and as part of a run. */
    method Cycle() returns (outcome: Outcome)
      requires Valid() && InOrder()
      modifies database
      ensures Valid() && InOrder()
      ensures outcome.NoReportOutcome? <==> TotalRank(old(database.Slots())) == 0
      ensures TotalRank(database.Slots()) + (if outcome.NoReportOutcome? then 0 else 1)
           <= TotalRank(old(database.Slots()))
    {
      ghost var before := database.Contents();
      ghost var last;
      outcome, last := Process();
      EndsReaches(Point(before, Holding), last, At(Done), outcome, Originals(), batchSize);
      CycleSettles(before, database.Contents(), Originals(), batchSize);
      CycleIsReached(before, database.Contents(), Originals(), batchSize);
    }

    /** Cycle after cycle until no report is open: at most two for each report. In
        the end just the valid originals are completed and the stock is theirs. */
    method DrainQueue() returns (cycles: nat)
      requires Valid() && InOrder()
      modifies database
      ensures Valid() && InOrder()
      ensures cycles <= 2 * |objects|
      ensures Drained(database.Contents(), Originals(), batchSize)
    {
      ghost var rank := TotalRank(database.Slots());
      RankBound(database.Slots());
      cycles := 0;
      var outcome := Cycle();
      while !outcome.NoReportOutcome?
        invariant Valid() && InOrder()
        invariant outcome.NoReportOutcome? ==> TotalRank(database.Slots()) == 0
        invariant cycles + TotalRank(database.Slots()) + (if outcome.NoReportOutcome? then 0 else 1) <= rank
        decreases rank - cycles, !outcome.NoReportOutcome?
      {
        cycles := cycles + 1;
        outcome := Cycle();
      }
      ClosedIsDrained(database.Contents(), Originals(), batchSize);
    }
  }

  /** A run with one worker leads to the database. */
  ghost predicate IsReached(db: Db, originals: seq<Verdict>, batchSize: nat) {
    Reachable(State(db, originals, [IDLE], None), batchSize, true)
  }

  lemma CycleIsReached(before: Db, after: Db, originals: seq<Verdict>, batchSize: nat)
    requires IsReached(before, originals, batchSize)
    requires Reaches(Point(before, Holding), Point(after, Done), originals, batchSize)
    ensures IsReached(after, originals, batchSize)
  {
    var s := State(before, originals, [IDLE], None);
    CycleReachable(s, 0, after, batchSize, true);
    assert s.workers[0 := IDLE] == [IDLE];
  }

  lemma RegistrationIsReached(db: Db, originals: seq<Verdict>, v: Verdict, batchSize: nat)
    requires IsReached(db, originals, batchSize) && Accounted(v)
    ensures IsReached(Registered(db), originals + [v], batchSize)
  {
    StepReachable(State(db, originals, [IDLE], None), Action.Register(v), batchSize, true);
  }

  lemma NothingIsReached(batchSize: nat)
    ensures IsReached(Db([], EMPTY_TABLES), [], batchSize)
  {
    StartReachable(State(Db([], EMPTY_TABLES), [], [IDLE], None), batchSize, true);
  }

  lemma VerdictsGrow(objects: seq<Original>, original: Original, lim: Limits)
    ensures VerdictsOf(objects + [original], lim) == VerdictsOf(objects, lim) + [Validate(Received(original), lim)]
  {
  }

  /** All invariants hold between two cycles, and a run has led here. */
  ghost predicate Orderly(db: Db, originals: seq<Verdict>, batchSize: nat) {
    Settled(Point(db, Done), originals, batchSize) && IsReached(db, originals, batchSize)
  }

  lemma RegistrationSettles(db: Db, originals: seq<Verdict>, text: Text, lim: Limits, batchSize: nat)
    requires Orderly(db, originals, batchSize)
    ensures Orderly(Registered(db), originals + [Validate(text, lim)], batchSize)
  {
    RowAccounting(text, lim);
    RegistrationIsReached(db, originals, Validate(text, lim), batchSize);
    RegisterSettles(db, originals, Validate(text, lim), batchSize);
  }

  /** `n` reports registered on the empty database. */
  function Queued(n: nat): Db {
    if n == 0 then Db([], EMPTY_TABLES) else Registered(Queued(n - 1))
  }

  lemma NothingSettled(batchSize: nat)
    ensures Orderly(Db([], EMPTY_TABLES), [], batchSize)
  {
    EmptyDb();
    EmptyHistory();
    NothingIsReached(batchSize);
  }

  lemma VerdictsLast(originals: seq<Original>, lim: Limits)
    requires originals != []
    ensures var n := |originals| - 1;
            VerdictsOf(originals, lim) == VerdictsOf(originals[..n], lim) + [Validate(Received(originals[n]), lim)]
  {
    var n := |originals| - 1;
    assert originals == originals[..n] + [originals[n]];
    VerdictsGrow(originals[..n], originals[n], lim);
  }

  lemma {:induction false} QueuedSettled(originals: seq<Original>, lim: Limits, batchSize: nat)
    ensures Orderly(Queued(|originals|), VerdictsOf(originals, lim), batchSize)
  {
    if originals == [] {
      NothingSettled(batchSize);
    } else {
      QueuedSettled(originals[..|originals| - 1], lim, batchSize);
      VerdictsLast(originals, lim);
      var n := |originals| - 1;
      RegistrationSettles(Queued(n), VerdictsOf(originals[..n], lim), Received(originals[n]), lim, batchSize);
    }
  }

  method RegisterAll(originals: seq<Original>, limits: Limits, batchSize: nat) returns (processor: ReportProcessor)
    requires batchSize >= 1
    ensures fresh(processor) && fresh(processor.database) && processor.Valid()
    ensures processor.limits == limits && processor.batchSize == batchSize && processor.objects == originals
    ensures processor.database.Contents() == Queued(|originals|)
  {
    processor := new ReportProcessor(limits, batchSize);
    for k := 0 to |originals|
      invariant fresh(processor) && fresh(processor.database)
      invariant processor.limits == limits && processor.batchSize == batchSize
      invariant processor.Valid() && processor.objects == originals[..k]
      invariant processor.database.Contents() == Queued(k)
    {
      processor.Register(originals[k]);
    }
    assert originals[..|originals|] == originals;
  }

  /** Originals registered on an empty database and worked off: the stock is the
      one of the valid originals, whatever their division into pieces and batches. */
  method ImportAll(originals: seq<Original>, limits: Limits, batchSize: nat) returns (db: Db)
    requires batchSize >= 1
    ensures Drained(db, VerdictsOf(originals, limits), batchSize)
    ensures IsReached(db, VerdictsOf(originals, limits), batchSize)
  {
    var processor := RegisterAll(originals, limits, batchSize);
    QueuedSettled(originals, limits, batchSize);
    var cycles := processor.DrainQueue();
    db := processor.database.Contents();
  }

  /** The snapshots of the valid originals among the first `n`, in queue order. */
  ghost function ValidHistory(originals: seq<Verdict>, n: nat): Stock
    requires n <= |originals|
  {
    if n == 0 then EMPTY_STOCK
    else
      var before := ValidHistory(originals, n - 1);
      if ValidOriginal(originals[n - 1]) then Snapshot(before, RowsOfOriginal(originals[n - 1])) else before
  }

  /** What a report ends with: completed, or failed with all that is wrong with its
      original, or failed by an exception. */
  ghost predicate EndsAs(slot: Slot, v: Verdict, batchSize: nat) {
    if ValidOriginal(v) then AppliedSlot(slot, v)
    else if v.raised then RaisedSlot(slot, v, batchSize)
    else RejectedSlot(slot, v)
  }

  /** Every report has ended as its original deserves, and the stock is what the valid
      originals say. */
  ghost predicate Drained(db: Db, originals: seq<Verdict>, batchSize: nat) {
    && |db.slots| == |originals|
    && (forall i :: 0 <= i < |db.slots| ==> EndsAs(db.slots[i], originals[i], batchSize))
    && View(db.tables) == ValidHistory(originals, |originals|)
  }

  lemma {:induction false} HistoryOfValid(slots: seq<Slot>, originals: seq<Verdict>, n: nat)
    requires n <= |slots| == |originals|
    requires forall i :: 0 <= i < n ==> (slots[i].report.status == Completed <==> ValidOriginal(originals[i]))
    ensures History(slots, originals, n) == ValidHistory(originals, n)
  {
    if n > 0 {
      HistoryOfValid(slots, originals, n - 1);
    }
  }

  lemma ClosedEnds(slots: seq<Slot>, originals: seq<Verdict>, batchSize: nat, i: nat)
    requires Decided(slots, originals, batchSize) && i < |slots| && !Open(slots[i])
    ensures EndsAs(slots[i], originals[i], batchSize)
    ensures slots[i].report.status == Completed <==> ValidOriginal(originals[i])
  {
    assert DecidedSlot(slots[i], originals[i], batchSize);
  }

  lemma ClosedIsDrained(db: Db, originals: seq<Verdict>, batchSize: nat)
    requires Settled(Point(db, Done), originals, batchSize) && TotalRank(db.slots) == 0
    ensures Drained(db, originals, batchSize)
  {
    RankBound(db.slots);
    forall i | 0 <= i < |db.slots|
      ensures EndsAs(db.slots[i], originals[i], batchSize)
      ensures db.slots[i].report.status == Completed <==> ValidOriginal(originals[i])
    {
      ClosedEnds(db.slots, originals, batchSize, i);
    }
    HistoryOfValid(db.slots, originals, |db.slots|);
  }
}
