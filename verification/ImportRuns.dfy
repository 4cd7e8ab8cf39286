/** Runs of the whole system, from the texts of the originals to the stock. */
module ImportRuns {
  import opened Common
  import opened CsvValidation
  import opened CsvAccounting
  import opened SnapshotModel
  import opened StockTables
  import opened ReportStore
  import opened CsvRoundTrip
  import opened PrintedReports
  import opened WorkerProtocol
  import opened WorkerSafety
  import opened StockHistory
  import opened GuardedClaims
  import opened ExclusiveRuns

  /** The verdicts on the originals registered by the first `n` actions. */
  function Registrations(actions: seq<Action>, n: nat): seq<Verdict>
    requires n <= |actions|
  {
    if n == 0 then []
    else Registrations(actions, n - 1) + if actions[n - 1].Register? then [actions[n - 1].verdict] else []
  }

  lemma {:induction false} OriginalsRegistered(states: seq<State>, actions: seq<Action>, batchSize: nat, n: nat)
    requires IsRun(states, actions, batchSize) && n <= |actions|
    ensures states[n].originals == Registrations(actions, n)
    decreases n
  {
    if n > 0 {
      OriginalsRegistered(states, actions, batchSize, n - 1);
      RunStep(states, actions, batchSize, n - 1);
    }
  }

  /** The rows that all records of a text stand for. */
  function RowsOfText(text: Text, lim: Limits): Staging {
    RowsOfOriginal(Validate(text, lim))
  }

  /** Each registration is that of the next text. */
  predicate RegistersTexts(actions: seq<Action>, texts: seq<Text>, lim: Limits) {
    var registered := Registrations(actions, |actions|);
    |registered| == |texts| && forall i :: 0 <= i < |texts| ==> registered[i] == Validate(texts[i], lim)
  }

  /** The rows of the texts of completed reports, applied one report after the
      other in queue order and row by row in line order. */
  ghost function StockOf(slots: seq<Slot>, texts: seq<Text>, lim: Limits, n: nat): Stock
    requires n <= |slots| && n <= |texts|
  {
    if n == 0 then EMPTY_STOCK
    else
      var before := StockOf(slots, texts, lim, n - 1);
      if slots[n - 1].report.status == Completed then Snapshot(before, RowsOfText(texts[n - 1], lim)) else before
  }

  lemma {:induction false} HistoryOfTexts(slots: seq<Slot>, originals: seq<Verdict>, texts: seq<Text>, lim: Limits,
                                          n: nat)
    requires n <= |slots| && n <= |texts| == |originals|
    requires forall i :: 0 <= i < |texts| ==> originals[i] == Validate(texts[i], lim)
    ensures History(slots, originals, n) == StockOf(slots, texts, lim, n)
  {
    if n > 0 {
      HistoryOfTexts(slots, originals, texts, lim, n - 1);
    }
  }

  /** In every run the completed reports are those of texts without a rejected record. */
  lemma CompletedTextsAreClean(states: seq<State>, actions: seq<Action>, batchSize: nat, texts: seq<Text>, lim: Limits)
    requires IsRun(states, actions, batchSize) && batchSize >= 1 && RegistersTexts(actions, texts, lim)
    ensures var db := states[|actions|].db;
            && |db.slots| == |texts|
            && forall i :: 0 <= i < |texts| && db.slots[i].report.status == Completed ==> Clean(Validate(texts[i], lim))
  {
    var n := |actions|;
    OriginalsRegistered(states, actions, batchSize, n);
    RunKeeps(states, actions, batchSize, n);
    var db, originals := states[n].db, states[n].originals;
    forall i | 0 <= i < |texts| && db.slots[i].report.status == Completed
      ensures Clean(Validate(texts[i], lim))
    {
      assert SlotInv(db.slots[i], originals[i]);
    }
  }

  /** When claims are made with the lock, those texts also report no pair twice. */
  lemma CompletedTextsAreValid(states: seq<State>, actions: seq<Action>, batchSize: nat, texts: seq<Text>, lim: Limits)
    requires IsGuardedRun(states, actions, batchSize) && batchSize >= 1 && RegistersTexts(actions, texts, lim)
    ensures var db := states[|actions|].db;
            && |db.slots| == |texts|
            && forall i :: 0 <= i < |texts| && db.slots[i].report.status == Completed ==>
                 ValidOriginal(Validate(texts[i], lim))
  {
    var n := |actions|;
    OriginalsRegistered(states, actions, batchSize, n);
    CompletedTextsAreClean(states, actions, batchSize, texts, lim);
    var db, originals := states[n].db, states[n].originals;
    forall i | 0 <= i < |texts| && db.slots[i].report.status == Completed
      ensures ValidOriginal(Validate(texts[i], lim))
    {
      CompletedIsUnique(states, actions, batchSize, n, i);
    }
  }

  /** Then the stock tables hold what the texts of the completed reports say, however
      workers, crashes, faults and late transactions interleave and in whatever order
      rows are inserted. */
  lemma StockIsThatOfTexts(states: seq<State>, actions: seq<Action>, batchSize: nat, texts: seq<Text>, lim: Limits)
    requires IsGuardedRun(states, actions, batchSize) && batchSize >= 1 && RegistersTexts(actions, texts, lim)
    ensures var db := states[|actions|].db;
            |db.slots| == |texts| && View(db.tables) == StockOf(db.slots, texts, lim, |texts|)
  {
    var n := |actions|;
    OriginalsRegistered(states, actions, batchSize, n);
    StockIsAlwaysHistory(states, actions, batchSize, n);
    HistoryOfTexts(states[n].db.slots, states[n].originals, texts, lim, |texts|);
  }

  /** Without any condition on the claims, the same holds when no text of a completed
      report reports a pair twice. */
  lemma StockOfUniqueTexts(states: seq<State>, actions: seq<Action>, batchSize: nat, texts: seq<Text>, lim: Limits)
    requires IsRun(states, actions, batchSize) && batchSize >= 1 && RegistersTexts(actions, texts, lim)
    requires forall i: nat :: i < |texts| && IsCompleted(states[|actions|], i) ==>
               UniquePairs(RowsOfText(texts[i], lim))
    ensures var db := states[|actions|].db;
            |db.slots| == |texts| && View(db.tables) == StockOf(db.slots, texts, lim, |texts|)
  {
    var n := |actions|;
    OriginalsRegistered(states, actions, batchSize, n);
    CompletedTextsAreClean(states, actions, batchSize, texts, lim);
    UniqueCompletedMakeHistory(states, actions, batchSize, n);
    HistoryOfTexts(states[n].db.slots, states[n].originals, texts, lim, |texts|);
  }

  lemma {:induction false} EventRows(rows: seq<ValidatedRow>)
    ensures RowsOf(EventsOf(rows)) == rows && IssuesOf(EventsOf(rows)) == []
    decreases |rows|
  {
    if rows != [] {
      assert EventsOf(rows)[1..] == EventsOf(rows[1..]);
      EventRows(rows[1..]);
      assert [rows[0]] + rows[1..] == rows;
    }
  }

  lemma VerdictOfRows(rows: seq<ValidatedRow>)
    ensures var v := Verdict(EventsOf(rows), |rows|, true, false); RowsOfOriginal(v) == ByLine(rows) && Clean(v)
  {
    EventRows(rows);
  }

  /** A printed report stands for exactly the printed rows, and it is a valid
      original just when no pair is printed twice. */
  lemma PrintedRowsAreImported(table: seq<PrintedRow>, header: seq<Text>, rows: seq<ValidatedRow>, lim: Limits)
    requires rows != [] && ReportRows(rows, header) && PrintsRows(table, header, rows) && WithinLimits(table, lim)
    ensures RowsOfText(Print(table), lim) == ByLine(rows)
    ensures ValidOriginal(Validate(Print(table), lim)) <==> UniquePairs(ByLine(rows))
  {
    PrintedAccepted(table, header, rows, lim);
    VerdictOfRows(rows);
  }
}
