/** Buffering of validated rows and issues into bounded write batches. */
module Batches {
  import opened CsvValidation
  import opened CsvAccounting

  datatype Write = StagingBatch(rows: seq<ValidatedRow>) | ErrorBatch(issues: seq<Issue>)

  /** The two open batches and the batches written so far. */
  datatype Buffer = Buffer(staging: seq<ValidatedRow>, errors: seq<Issue>, written: seq<Write>)

  const EMPTY: Buffer := Buffer([], [], [])

  function FlushStaging(b: Buffer): Buffer {
    if b.staging == [] then b else Buffer([], b.errors, b.written + [StagingBatch(b.staging)])
  }

  function FlushErrors(b: Buffer): Buffer {
    if b.errors == [] then b else Buffer(b.staging, [], b.written + [ErrorBatch(b.errors)])
  }

  function AddRow(b: Buffer, row: ValidatedRow, batchSize: nat): Buffer {
    var added := b.(staging := b.staging + [row]);
    if |added.staging| >= batchSize then FlushStaging(added) else added
  }

  function AddIssue(b: Buffer, issue: Issue, batchSize: nat): Buffer {
    var added := b.(errors := b.errors + [issue]);
    if |added.errors| >= batchSize then FlushErrors(added) else added
  }

  function AddIssues(b: Buffer, issues: seq<Issue>, batchSize: nat): Buffer
    decreases |issues|
  {
    if issues == [] then b else AddIssues(AddIssue(b, issues[0], batchSize), issues[1..], batchSize)
  }

  function Feed(b: Buffer, events: seq<Event>, batchSize: nat): Buffer
    decreases |events|
  {
    if events == [] then b
    else Feed(match events[0]
              case OnValidRow(row) => AddRow(b, row, batchSize)
              case OnIssues(issues) => AddIssues(b, issues, batchSize),
              events[1..], batchSize)
  }

  /** The write transactions of a validation: the open batches are flushed only
      when the stream ended without an exception. */
  function WritesOf(v: Verdict, batchSize: nat): seq<Write> {
    var b := Feed(EMPTY, v.events, batchSize);
    if v.raised then b.written else FlushErrors(FlushStaging(b)).written
  }

  /** The writer; `written` is what its session has committed. */
  class ValidationBatchWriter {
    const batchSize: nat
    var stagingBatch: seq<ValidatedRow>
    var errorBatch: seq<Issue>
    var written: seq<Write>

    ghost function Contents(): Buffer
      reads this
    {
      Buffer(stagingBatch, errorBatch, written)
    }

    constructor (batchSize: nat)
      ensures this.batchSize == batchSize && Contents() == EMPTY
    {
      this.batchSize := batchSize;
      stagingBatch, errorBatch, written := [], [], [];
    }

    method FlushStagingBatch()
      modifies `stagingBatch, `written
      ensures Contents() == FlushStaging(old(Contents()))
    {
      if stagingBatch == [] {
        return;
      }
      var batch := stagingBatch;
      stagingBatch := [];
      written := written + [StagingBatch(batch)];
    }

    method FlushErrorBatch()
      modifies `errorBatch, `written
      ensures Contents() == FlushErrors(old(Contents()))
    {
      if errorBatch == [] {
        return;
      }
      var batch := errorBatch;
      errorBatch := [];
      written := written + [ErrorBatch(batch)];
    }

    method AddValidRow(row: ValidatedRow)
      modifies `stagingBatch, `written
      ensures Contents() == AddRow(old(Contents()), row, batchSize)
    {
      stagingBatch := stagingBatch + [row];
      if |stagingBatch| >= batchSize {
        FlushStagingBatch();
      }
    }

    method AddIssueList(issues: seq<Issue>)
      modifies `errorBatch, `written
      ensures Contents() == AddIssues(old(Contents()), issues, batchSize)
    {
      for i := 0 to |issues|
        invariant AddIssues(Contents(), issues[i..], batchSize) == AddIssues(old(Contents()), issues, batchSize)
        invariant stagingBatch == old(stagingBatch)
      {
        assert issues[i..][1..] == issues[i + 1..];
        errorBatch := errorBatch + [issues[i]];
        if |errorBatch| >= batchSize {
          FlushErrorBatch();
        }
      }
    }

    method FlushAll()
      modifies `stagingBatch, `errorBatch, `written
      ensures Contents() == FlushErrors(FlushStaging(old(Contents())))
      ensures stagingBatch == [] && errorBatch == []
    {
      FlushStagingBatch();
      FlushErrorBatch();
    }
  }

  /** The callbacks of a validation drive the writer. */
  method WriteVerdict(v: Verdict, batchSize: nat) returns (written: seq<Write>)
    ensures written == WritesOf(v, batchSize)
  {
    var writer := new ValidationBatchWriter(batchSize);
    for i := 0 to |v.events|
      invariant fresh(writer) && writer.batchSize == batchSize
      invariant Feed(writer.Contents(), v.events[i..], batchSize) == Feed(EMPTY, v.events, batchSize)
    {
      assert v.events[i..][1..] == v.events[i + 1..];
      match v.events[i] {
        case OnValidRow(row) => writer.AddValidRow(row);
        case OnIssues(issues) => writer.AddIssueList(issues);
      }
    }
    if !v.raised {
      writer.FlushAll();
    }
    written := writer.written;
  }

  // ---------------------------------------------------------------------
  // Nothing is lost, reordered or repeated
  // ---------------------------------------------------------------------

  function RowsIn(writes: seq<Write>): seq<ValidatedRow> {
    if writes == [] then []
    else RowsIn(writes[..|writes| - 1]) +
         (if writes[|writes| - 1].StagingBatch? then writes[|writes| - 1].rows else [])
  }

  function IssuesIn(writes: seq<Write>): seq<Issue> {
    if writes == [] then []
    else IssuesIn(writes[..|writes| - 1]) +
         (if writes[|writes| - 1].ErrorBatch? then writes[|writes| - 1].issues else [])
  }

  function SizeOf(w: Write): nat {
    match w
    case StagingBatch(rows) => |rows|
    case ErrorBatch(issues) => |issues|
  }

  /** Everything the buffer has been given, in order. */
  function AllRows(b: Buffer): seq<ValidatedRow> {
    RowsIn(b.written) + b.staging
  }

  function AllIssues(b: Buffer): seq<Issue> {
    IssuesIn(b.written) + b.errors
  }

  /** Open batches are short of the batch size, written ones within 1..size. */
  ghost predicate Bounded(b: Buffer, batchSize: nat) {
    && |b.staging| < batchSize && |b.errors| < batchSize
    && WellSized(b.written, batchSize)
  }

  lemma WrittenSnoc(written: seq<Write>, w: Write)
    ensures RowsIn(written + [w]) == RowsIn(written) + (if w.StagingBatch? then w.rows else [])
    ensures IssuesIn(written + [w]) == IssuesIn(written) + (if w.ErrorBatch? then w.issues else [])
  {
    assert (written + [w])[..|written|] == written;
  }

  lemma FlushKeeps(b: Buffer)
    ensures AllRows(FlushStaging(b)) == AllRows(b) == AllRows(FlushErrors(b))
    ensures AllIssues(FlushStaging(b)) == AllIssues(b) == AllIssues(FlushErrors(b))
  {
    WrittenSnoc(b.written, StagingBatch(b.staging));
    WrittenSnoc(b.written, ErrorBatch(b.errors));
  }

  /** `c` is `b` after it has been given `rows` and `issues`. */
  ghost predicate Given(b: Buffer, c: Buffer, rows: seq<ValidatedRow>, issues: seq<Issue>, batchSize: nat) {
    Bounded(c, batchSize) && AllRows(c) == AllRows(b) + rows && AllIssues(c) == AllIssues(b) + issues
  }

  lemma GivenThen(b: Buffer, c: Buffer, d: Buffer, r: seq<ValidatedRow>, i: seq<Issue>,
                  r': seq<ValidatedRow>, i': seq<Issue>, batchSize: nat)
    requires Given(b, c, r, i, batchSize) && Given(c, d, r', i', batchSize)
    ensures Given(b, d, r + r', i + i', batchSize)
  {
    assert AllRows(b) + r + r' == AllRows(b) + (r + r');
    assert AllIssues(b) + i + i' == AllIssues(b) + (i + i');
  }

  lemma RowAdded(b: Buffer, row: ValidatedRow, batchSize: nat)
    requires Bounded(b, batchSize)
    ensures Given(b, AddRow(b, row, batchSize), [row], [], batchSize)
  {
    var added := b.(staging := b.staging + [row]);
    FlushKeeps(added);
    assert AllRows(added) == AllRows(b) + [row];
    assert AllIssues(b) + [] == AllIssues(b);
  }

  lemma IssueAdded(b: Buffer, issue: Issue, batchSize: nat)
    requires Bounded(b, batchSize)
    ensures Given(b, AddIssue(b, issue, batchSize), [], [issue], batchSize)
  {
    var added := b.(errors := b.errors + [issue]);
    FlushKeeps(added);
    assert AllIssues(added) == AllIssues(b) + [issue];
    assert AllRows(b) + [] == AllRows(b);
  }

  lemma NothingGiven(b: Buffer, batchSize: nat)
    requires Bounded(b, batchSize)
    ensures Given(b, b, [], [], batchSize)
  {
    assert AllRows(b) + [] == AllRows(b) && AllIssues(b) + [] == AllIssues(b);
  }

  lemma {:induction false} IssuesAdded(b: Buffer, issues: seq<Issue>, batchSize: nat)
    requires Bounded(b, batchSize)
    ensures Given(b, AddIssues(b, issues, batchSize), [], issues, batchSize)
    decreases |issues|
  {
    if issues == [] {
      NothingGiven(b, batchSize);
    } else {
      var c := AddIssue(b, issues[0], batchSize);
      IssueAdded(b, issues[0], batchSize);
      IssuesAdded(c, issues[1..], batchSize);
      GivenThen(b, c, AddIssues(c, issues[1..], batchSize), [], [issues[0]], [], issues[1..], batchSize);
      assert [issues[0]] + issues[1..] == issues;
    }
  }

  function FeedOne(b: Buffer, event: Event, batchSize: nat): Buffer {
    match event
    case OnValidRow(row) => AddRow(b, row, batchSize)
    case OnIssues(issues) => AddIssues(b, issues, batchSize)
  }

  function RowsOfEvent(event: Event): seq<ValidatedRow> {
    if event.OnValidRow? then [event.row] else []
  }

  function IssuesOfEvent(event: Event): seq<Issue> {
    if event.OnIssues? then event.issues else []
  }

  lemma EventsHead(events: seq<Event>)
    requires events != []
    ensures RowsOf(events) == RowsOfEvent(events[0]) + RowsOf(events[1..])
    ensures IssuesOf(events) == IssuesOfEvent(events[0]) + IssuesOf(events[1..])
  {
  }

  lemma EventFed(b: Buffer, event: Event, batchSize: nat)
    requires Bounded(b, batchSize)
    ensures Given(b, FeedOne(b, event, batchSize), RowsOfEvent(event), IssuesOfEvent(event), batchSize)
  {
    match event
    case OnValidRow(row) => RowAdded(b, row, batchSize);
    case OnIssues(issues) => IssuesAdded(b, issues, batchSize);
  }

  lemma {:induction false} FeedKeeps(b: Buffer, events: seq<Event>, batchSize: nat)
    requires Bounded(b, batchSize)
    ensures Given(b, Feed(b, events, batchSize), RowsOf(events), IssuesOf(events), batchSize)
    decreases |events|
  {
    if events == [] {
      NothingGiven(b, batchSize);
    } else {
      var event, rest := events[0], events[1..];
      var c := FeedOne(b, event, batchSize);
      EventFed(b, event, batchSize);
      EventsHead(events);
      FeedKeeps(c, rest, batchSize);
      GivenThen(b, c, Feed(c, rest, batchSize), RowsOfEvent(event), IssuesOfEvent(event),
                RowsOf(rest), IssuesOf(rest), batchSize);
    }
  }

  ghost predicate WellSized(writes: seq<Write>, batchSize: nat) {
    forall i :: 0 <= i < |writes| ==> 1 <= SizeOf(writes[i]) <= batchSize
  }

  lemma FlushBounded(b: Buffer, batchSize: nat)
    requires Bounded(b, batchSize)
    ensures WellSized(FlushErrors(FlushStaging(b)).written, batchSize)
    ensures FlushErrors(FlushStaging(b)).staging == [] && FlushErrors(FlushStaging(b)).errors == []
  {
  }

  /** The batches hold the rows and issues in order, each batch of size
      1..batchSize; they are all there unless validation raised, and a prefix then. */
  lemma WritesComplete(v: Verdict, batchSize: nat)
    requires batchSize >= 1
    ensures var writes := WritesOf(v, batchSize);
            && WellSized(writes, batchSize)
            && RowsIn(writes) <= RowsOf(v.events) && IssuesIn(writes) <= IssuesOf(v.events)
            && (!v.raised ==> RowsIn(writes) == RowsOf(v.events) && IssuesIn(writes) == IssuesOf(v.events))
  {
    var b := Feed(EMPTY, v.events, batchSize);
    FeedKeeps(EMPTY, v.events, batchSize);
    assert [] + RowsOf(v.events) == RowsOf(v.events) && [] + IssuesOf(v.events) == IssuesOf(v.events);
    assert AllRows(b) == RowsOf(v.events) && AllIssues(b) == IssuesOf(v.events);
    if !v.raised {
      var c := FlushErrors(FlushStaging(b));
      FlushBounded(b, batchSize);
      FlushKeeps(b);
      FlushKeeps(FlushStaging(b));
      assert RowsIn(c.written) + [] == RowsIn(c.written) && IssuesIn(c.written) + [] == IssuesIn(c.written);
    }
  }

  // ---------------------------------------------------------------------
  // Only full batches before the end
  // ---------------------------------------------------------------------

  predicate AllFull(writes: seq<Write>, batchSize: nat) {
    forall i :: 0 <= i < |writes| ==> SizeOf(writes[i]) == batchSize
  }

  /** Only full batches have been written, and the open ones are not full. */
  ghost predicate FullSoFar(b: Buffer, batchSize: nat) {
    AllFull(b.written, batchSize) && |b.staging| < batchSize && |b.errors| < batchSize
  }

  lemma {:induction false} IssuesLeaveFull(b: Buffer, issues: seq<Issue>, batchSize: nat)
    requires FullSoFar(b, batchSize)
    ensures FullSoFar(AddIssues(b, issues, batchSize), batchSize)
    decreases |issues|
  {
    if issues != [] {
      IssuesLeaveFull(AddIssue(b, issues[0], batchSize), issues[1..], batchSize);
    }
  }

  lemma {:induction false} FeedLeavesFull(b: Buffer, events: seq<Event>, batchSize: nat)
    requires FullSoFar(b, batchSize)
    ensures FullSoFar(Feed(b, events, batchSize), batchSize)
    decreases |events|
  {
    if events != [] {
      if events[0].OnIssues? {
        IssuesLeaveFull(b, events[0].issues, batchSize);
      }
      FeedLeavesFull(FeedOne(b, events[0], batchSize), events[1..], batchSize);
    }
  }

  /** A batch is written when it is full, or at the end of the stream: first the rows
      left over, then the issues, if any. After an exception nothing more is written, and
      less than a batch of either is lost. */
  lemma FullOrLast(v: Verdict, batchSize: nat) returns (full: seq<Write>, rows: seq<ValidatedRow>, issues: seq<Issue>)
    requires batchSize >= 1
    ensures AllFull(full, batchSize) && |rows| < batchSize && |issues| < batchSize
    ensures RowsOf(v.events) == RowsIn(full) + rows && IssuesOf(v.events) == IssuesIn(full) + issues
    ensures WritesOf(v, batchSize) ==
            full + if v.raised then [] else (if rows == [] then [] else [StagingBatch(rows)])
                                            + if issues == [] then [] else [ErrorBatch(issues)]
  {
    var b := Feed(EMPTY, v.events, batchSize);
    FeedLeavesFull(EMPTY, v.events, batchSize);
    FeedKeeps(EMPTY, v.events, batchSize);
    assert [] + RowsOf(v.events) == RowsOf(v.events) && [] + IssuesOf(v.events) == IssuesOf(v.events);
    full, rows, issues := b.written, b.staging, b.errors;
  }
}
