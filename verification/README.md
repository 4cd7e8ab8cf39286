# Verified model of the stock report importer

The importer takes CSV stock reports, validates them record by record, and applies each
valid one as a snapshot: the reported rows become the whole stock of the reported
warehouses. Several worker processes share one queue under a PostgreSQL advisory lock
and recover each other's interrupted work. The Dafny files model this behaviour and prove
what it promises, from the characters of an original to the stock tables.

## Parts

- `CsvSplitter`, `CsvRecords`: the chunked record splitter as a class with the flags and
  buffers of the generator, proved to refine a one-character automaton for records
  (section 2 of RFC 4180), with exact counts and bounded storage.
- `CsvReader`, `CsvRoundTrip`, `CsvSyntax`: the strict reader automaton behind `csv.reader`,
  its agreement with the splitter, the round trip of printed rows and its converse.
- `CsvValidation`, `CsvAccounting`, `Quantities`, `PrintedReports`, `RecordOutcomes`: the
  validator with its events and summary, the accounting of records, the numerals, the
  acceptance of printed reports, and what every record of a text leads to.
- `BoundedRaw`, `ChunkReader`, `Batches`: bounding of raw data, the raw reader over chunks,
  the batch writer.
- `MapFolds`, `SnapshotModel`, `StockTables`, `ApplyCounters`, `StockStatements`,
  `DuplicateRows`: the meaning of a report as a fold over its rows, the SQL statements on
  tables with identity ids that implement it, the counters, and the duplicate check.
- `ReportStore`, `WorkerProtocol`, `WorkerSafety`: reports with staging and errors, the
  transactions of a worker, and the state machine of any number of workers with crashes,
  faults, lost locks and commits that are not acknowledged; what holds in every run.
- `StockHistory`, `GuardedClaims`, `ExclusiveRuns`: when the stock tables are the fold of
  the completed reports; runs whose claims are made with the lock; runs in which only the
  lock holder commits.
- `LateClaims`: runs that show where these promises end.
- `QueueDrain`, `WorkerCycle`, `RunSegments`: the measure that drains the queue, a cycle
  without faults as a path of transactions, and such paths as segments of runs.
- `ReportDatabase`, `ReportProcessing`, `ImportRuns`: the worker's program on shared
  mutable tables, proved to follow the protocol, the loop that drains the queue, and the
  results about whole texts.
- `Upload`: the multipart upload with its part reader and an abstract storage service.

## Main results

1. `CsvSplitter.Split`: the output of the splitter does not depend on how the text is cut.
   `CsvSyntax.FieldsExactly`, `MalformedExactly`, `TooLargeExactly`: which records are read
   as which fields and which are refused, in terms of their characters.
   `RecordOutcomes.HeaderOutcome`, `EventOutcome`, `ReadingStopsExactly`: what the validator
   makes of every record of every text, and where it stops.
2. `StockHistory.StockIsHistoryExactly`: in every run of every interleaving, with the rows
   of each apply inserted in any order, the stock tables have always been the fold, in queue
   order, of the validated originals of the completed reports exactly when every apply
   ended each pair on the quantity of its highest line. `GuardedClaims.StockIsAlwaysHistory`
   and `ImportRuns.StockIsThatOfTexts`: they are that fold whenever claims are made with the
   lock; `StockHistory.UniqueCompletedMakeHistory`: and in any run when no completed
   original repeats a pair.
3. `GuardedClaims.ReadyIsUnique`: when claims are made with the lock, what recovery takes
   for validated has unique pairs, whatever else late workers commit.
4. `WorkerSafety.AppliedOnceIffCompleted`, `StockChangesOnlyOnApply`, `ClosedIsFinal`,
   `AtMostOneMoreCommit`: apply happens at most once, and a late worker
   never reopens, changes or applies again what is closed.
5. `StockTables.ApplyIsSnapshot`, `StockHistory.StoredCountersExact`: when the set-based
   transaction means the row-by-row fold, and that the counters stored with a report are
   the difference its apply makes.
6. `ExclusiveRuns.StoredFactsUnderLock`, `ErrorsOfFailure`, `ErrorsExact`: what is stored
   about closed and ready reports when only the lock holder commits, which errors a report
   that failed by validation has, and by how much they can exceed its error count.
7. `ReportProcessing.ImportAll`: the program, run without faults, ends within two cycles
   per report with every report ended as its original deserves, in a state that a run of
   the state machine reaches.
8. `ImportRuns.PrintedRowsAreImported`: what is printed as a report is what is imported.
9. `Upload.UploadStream`: for every fragmentation a successful upload is the content in
   numbered parts, and without faults the size limit alone decides.

## What is assumed

- Originals never change once registered, and the queue keys `(created_at, id)` increase
  with registration; reports are indexed in that order.
- A transaction is atomic. A commit may take effect without the worker being told, in runs
  under the lock too: the lock and the session are different connections.
- The check that the lock connection is alive is a step of its own, so the lock can be lost
  between a check and the commit after it. The claim has no such check before it.
- The batch size is at least 1, as the settings demand (`app/config.py:33`).
- Identity columns give values that are new and distinct; gaps are not observable.
- An insertion with a conflict clause goes through the joined rows in some order that the
  statement does not fix, and raises when it would insert or update one row a second time.
- `csv.reader` in strict mode is the automaton of `CsvReader`, with the outcomes row,
  malformed and field too large. `int()` refuses more than 4300 digits with an exception,
  which the model keeps as the outcome `Raises`.
- Texts are sequences of code points, surrogate escapes included, as the decoder gives them.

## Where code and documentation differ

- `docs/architecture.md:303` says that a worker whose lock connection is lost does not go on
  writing. The code can still commit the transaction that follows its last successful check,
  or the claim that follows its acquisition. `WorkerSafety.AtMostOneMoreCommit` proves that
  this is at most one, and none for a worker that was not about to commit at the loss;
  `LateClaims.CommitAfterLoss` is a run in which it happens.
- The claim (`app/services/report_processing.py:408-443`) is made without a check of the lock
  after its acquisition. A late claim can wipe what the present holder has stored, so a report
  can become ready with a pair on two lines: `LateClaims.ReadyWithoutUniquePairs`. With
  claims made under the lock this cannot happen (`GuardedClaims.ReadyIsUnique`), late batches,
  decisions and marks notwithstanding.
- The insertion (`app/services/apply_report.py:284-312`) has no ORDER BY. For unique pairs
  every order gives the same balances (`StockTables.AnyOrderIfUnique`); for a repeated pair
  one order raises and another may leave a quantity that the fold does not have
  (`StockTables.OrderMatters`). A late claim can bring such a report to its apply, after which
  the stock is not the fold: `LateClaims.StockIsNotHistory`.
- The exception handler of an apply (`app/services/report_processing.py:364-387`) cannot tell
  a failed commit from one of which it was not told. With the lock held throughout it can add
  an apply error to a report that is completed: `LateClaims.CompletedWithStoredError`.
  `ExclusiveRuns.ErrorsExact` says by how many errors the count then falls short, and
  `ErrorsCounted` and `UnacknowledgedBreaks` which commits must be acknowledged for it to be
  right: those that decide on counted errors, and applies.

## Model

| member | source | states |
|---|---|---|
| CsvSplitter.Split | app/services/csv_validation.py:422-542 | for every division of the text into pieces, the regex-jumping splitter yields exactly the records of the one-character automaton, each in bounded form; an empty read ends the stream |
| CsvSplitter.RecordSplitter.AppendPiece | app/services/csv_validation.py:439-453 | appending keeps the buffer at the bounded form of all text appended to the record so far, within the maximum |
| CsvSplitter.RecordSplitter.TrackQuotes | app/services/csv_validation.py:482-505 | one special character moves the three quote flags as the automaton moves its mode, and is a boundary just when the automaton closes the record |
| CsvSplitter.RecordSplitter.CountNormal | app/services/csv_validation.py:473-479 | a skipped run of ordinary characters is applied at once with the effect of consuming it one by one |
| CsvSplitter.RecordSplitter.HandleMatch | app/services/csv_validation.py:473-523 | a match is worth the automaton run over the skipped characters and the matched one |
| CsvSplitter.RecordSplitter.StepMatch | app/services/csv_validation.py:462-524 | one turn of the loop, including the LF of a CRLF, keeps the frame equal to the automaton state and accounts for the unappended piece |
| CsvSplitter.RecordSplitter.FeedChunk | app/services/csv_validation.py:455-535 | a whole chunk takes the frame to the state of the automaton after that chunk, with nothing left unappended |
| CsvSplitter.RecordSplitter.Close | app/services/csv_validation.py:537-542 | a last record without terminator is still yielded, an empty one is not |
| CsvSplitter.NormalRun | app/services/csv_validation.py:473-479 | a non-empty run of ordinary characters only extends the record, turns a pending quote or a field start into unquoted text and clears the CR state |
| CsvSplitter.RunAppend | app/services/csv_validation.py:455-535 | the automaton state after a text depends only on the state after its first part and on the rest |
| CsvRecords.NothingLost | app/services/csv_validation.py:461-542 | the yielded records, with one LF put back after a CR where one was dropped, are the input text: nothing is lost, moved or repeated |
| CsvRecords.CountsAndStorageExact | app/services/csv_validation.py:439-453 | the character counts and the dropped LFs add up to the input length; a record is truncated iff its count exceeds the limit; what is stored is a prefix of the record, of length min(preview, limit) when truncated |
| CsvRecords.AllAreRecords | app/services/csv_validation.py:507-542 | every yielded record is non-empty and ends at its first record boundary, which no other position of it is |
| CsvReader.ReaderFollows | app/services/csv_validation.py:484-505 | until it fails, the strict reader is in the state that matches the quote mode of the splitter |
| CsvReader.LinesAsOne | app/services/csv_validation.py:552-556 | a record with quoted line breaks, fed to the reader line by line, is read as if it were one line |
| CsvReader.OneRowPerRecord | app/services/csv_validation.py:545-589 | every record makes the reader produce exactly one row or fail in it, so the guard against a second row never fires; which records fail is stated by the three rows that follow the round trip |
| CsvRoundTrip.RoundTrip | app/services/csv_validation.py:422-589 | rows printed with any choice of quoted or bare cells and CRLF, LF or CR line ends, within the limits, are split and parsed back to the same fields |
| CsvSyntax.FieldsExactly | app/services/csv_validation.py:545-589 | the converse: a record is parsed to fields iff it is a printing of exactly these fields, each quoted or bare as the printer allows and within the limit, or a blank line without fields |
| CsvSyntax.MalformedExactly | app/services/csv_validation.py:552-589 | a record is malformed iff behind well-formed cells a closing quote is followed by another character than a quote, a comma or a line end, or a quote is never closed |
| CsvSyntax.TooLargeExactly | app/services/csv_validation.py:557-579 | a field is too large iff behind well-formed cells one goes beyond the limit |
| CsvSyntax.StrayRecordEnds | app/services/csv_validation.py:476-505 | behind a stray character after a closing quote the record goes on unquoted: quotes open nothing in the rest of that field, and the next line end closes the record |
| CsvValidation.ValidateHeader | app/services/csv_validation.py:266-299 | one issue for each required column that is missing or repeated, in the order of the columns |
| CsvValidation.HeaderIssuesExact | app/services/csv_validation.py:276-299 | there is no header issue iff each required column occurs exactly once |
| CsvValidation.HeaderIssuesMean | app/services/csv_validation.py:276-299 | a column is reported missing iff it does not occur, and repeated iff it occurs at two places |
| CsvValidation.ValidateRow | app/services/csv_validation.py:302-397 | the loop and its branches make the row check that the rows on quantities and outcomes characterise; a number of more than 4300 digits raises |
| Quantities.NumberExact | app/services/csv_validation.py:350-363 | a text is read as the integer v iff it is an optional sign, any zeros and the decimal digits of a number n, at most 4300 digits in all, with v = -n for a minus sign and v = n else; longer numerals raise and every other text is no integer |
| Quantities.NumeralRead | app/services/csv_validation.py:350-363 | a minus sign before the digits of n reads as -n, a plus sign as n, and leading zeros change nothing |
| Quantities.QuantityOfRow | app/services/csv_validation.py:350-382 | a row whose quantity is a numeral gets on it exactly the issue for a negative number, for one beyond 2^63-1, or none |
| Quantities.NoNumeralInRow | app/services/csv_validation.py:350-361 | a quantity that is no numeral is rejected as such |
| CsvAccounting.RecordFits | app/services/csv_validation.py:206-248 | whatever a record leads to is about that record: an accepted row carries its line number with stripped non-empty texts and a quantity in range, a rejection or a malformed record at least one issue, all on its line |
| CsvValidation.ValidateData | app/services/csv_validation.py:203-261 | the loop over the data records makes the callbacks of the record-by-record meaning and returns its summary, stopping at a malformed record |
| CsvValidation.ValidateCsvStream | app/services/csv_validation.py:106-263 | the verdict depends only on the text, not on how it was read; what it is for each record is stated by the rows on outcomes |
| RecordOutcomes.HeaderOutcome | app/services/csv_validation.py:127-200 | for every text the one verdict its header calls for: empty text, header too large, field too large, malformed, undecodable, missing or repeated columns, no data rows, or the data records |
| RecordOutcomes.RecordOutcome | app/services/csv_validation.py:206-248 | every record gets what its text deserves: too large, field too large, malformed, undecodable, wrong width, its issues, or a row |
| RecordOutcomes.AcceptedRecordExactly | app/services/csv_validation.py:206-248 | a record is accepted as a row iff it is within the limit and prints decodable fields that hold that row, and the row is a good one |
| RecordOutcomes.EventOutcome | app/services/csv_validation.py:203-248 | for every text each event is what the text of its record deserves, on its line |
| RecordOutcomes.AcceptedAreDecodable | app/services/csv_validation.py:234-236 | for every text no field of an accepted row and none of its header holds a code point in 0xDC80..0xDCFF |
| RecordOutcomes.UndecodableIsRejected | app/services/csv_validation.py:234-236 | a counted record that prints a field with such a code point is rejected with exactly invalid_utf8 on its line |
| RecordOutcomes.ReadingStopsExactly | app/services/csv_validation.py:206-233 | the end of the stream is reached iff no record is malformed or has a number that cannot be converted; otherwise the count stops with the first that does; records and fields that are too large do not stop the reading |
| CsvValidation.StripExact | app/services/csv_validation.py:329 | a stripped value is the text without a prefix and a suffix of white space, and empty or without white space at either end: there is no other such value |
| CsvValidation.WhiteSpace | app/services/csv_validation.py:329 | the 29 white-space code points |
| CsvAccounting.RowChecked | app/services/csv_validation.py:302-397 | a checked row gives a row with non-empty stripped texts and a quantity in 0..2^63-1, or at least one issue on its own line, never both |
| CsvAccounting.RowIssuesExact | app/services/csv_validation.py:338-382 | a row of the right width is rejected with exactly the issues it deserves: an empty text, a quantity that is no integer, negative, or beyond 2^63-1, each on its column |
| CsvAccounting.EventPerRecord | app/services/csv_validation.py:203-248 | one event per consumed record, carrying the number of that record; reading stops early only at a malformed record or an exception |
| CsvAccounting.RowsFit | app/services/csv_validation.py:203-248 | the rows have ascending line numbers, and there are as many as events iff there is no issue |
| CsvAccounting.RowAccounting | app/services/csv_validation.py:106-263 | for every text: no issue iff every counted record gave a row; then the stream was read to its end and the rows are numbered 2 to row_count + 1 |
| Quantities.QuantityRead | app/services/csv_validation.py:350-382 | the decimal digits of a number in range are read back as that number |
| PrintedReports.AcceptedExactly | app/services/csv_validation.py:302-397 | a row is accepted iff its columns, in any order, with any white space around them and anything in additional columns, hold its stripped, non-empty texts and a quantity in range |
| PrintedReports.FieldsHoldRow | app/services/csv_validation.py:328-397 | every row with stripped non-empty texts and a quantity in range can be written under every complete header |
| PrintedReports.PrintedAccepted | app/services/csv_validation.py:106-263 | a printed report within the limits, whose cells hold its rows, is accepted as a whole, with exactly its rows and no issue |
| BoundedRaw.BoundRawData | app/services/csv_validation.py:620-656 | the loop over entries and list items computes the bounding |
| BoundedRaw.CutText | app/services/csv_validation.py:659-669 | a cut text is a proper prefix as long as the limits allow, ended by the marker when there is room for more than the marker |
| BoundedRaw.ListIsKept | app/services/csv_validation.py:632-648 | of a list every item is kept up to the first text for which nothing of the total is left, whole if it fits and else cut to what is allowed |
| BoundedRaw.KeptNotEmptied | app/services/csv_validation.py:632-648 | no text that is kept of a list has been emptied |
| BoundedRaw.RawBounded | app/services/csv_validation.py:620-669 | every string is within the value limit, all together within the total, all keys are kept, and the data is marked iff it was changed |
| BoundedRaw.UnchangedIffFits | app/services/csv_validation.py:620-669 | the data is left unchanged iff its strings fit: each within both limits, and no list goes on with a string, even an empty one, once the total is used up |
| BoundedRaw.DuplicatePreview | app/services/report_processing.py:150-153 | the preview width keeps the four strings of a duplicate row within the value limit, and within the total when the total is at least 4; for a smaller total and non-empty strings it does not |
| ChunkReader.ChunkIteratorIO.ReadInto | app/services/csv_validation.py:75-97 | the buffer gets the next bytes of the chunks, as many as fit or as there are; what is behind them in the buffer is untouched |
| ChunkReader.ReadToEnd | app/services/csv_validation.py:75-97 | for any positive buffer sizes and any empty chunks, the results up to the first empty one concatenate to the chunks |
| Batches.ValidationBatchWriter.AddValidRow | app/services/report_processing.py:62-75 | a row is added and a full batch written |
| Batches.ValidationBatchWriter.AddIssueList | app/services/report_processing.py:77-90 | issues are added one by one, each full batch written at once |
| Batches.ValidationBatchWriter.FlushAll | app/services/report_processing.py:92-108 | both open batches are written unless empty, and nothing is left |
| Batches.WriteVerdict | app/services/report_processing.py:170-186 | the callbacks of a validation drive the writer; the open batches are flushed only when no exception came |
| Batches.WritesComplete | app/services/report_processing.py:62-118 | written batches have 1 to batch-size entries and concatenate to the rows and to the issues in order, all of them unless validation raised, a prefix then |
| Batches.FullOrLast | app/services/report_processing.py:62-108 | a batch is written only when it is full, or at the end of the stream, rows before issues; after an exception nothing more is written and less than one batch of either is lost |
| DuplicateRows.FlaggedIffEarlier | app/services/report_processing.py:229-277 | exactly the staged rows with an earlier row of the same pair are flagged |
| DuplicateRows.FlaggedCount | app/services/report_processing.py:229-277 | as many rows are flagged as there are staged rows beyond one per distinct pair |
| DuplicateRows.NoneIffUnique | app/services/report_processing.py:229-277 | nothing is flagged iff the pair is a key of the staged rows |
| DuplicateRows.OneIssuePerDuplicate | app/services/report_processing.py:279-293 | as many errors are stored as rows are flagged, and none iff the pairs are unique |
| DuplicateRows.DuplicateIssuesExact | app/services/report_processing.py:229-277 | the errors are exactly one on the line of each row with an earlier row of its pair, in line order |
| SnapshotModel.SnapshotByTable | app/services/apply_report.py:283-349 | the row-by-row fold in line order, table by table: each key takes the value of its last line |
| SnapshotModel.ReportedPair | app/services/apply_report.py:283-312 | a reported pair gets the reported quantity |
| SnapshotModel.UnreportedPair | app/services/apply_report.py:314-349 | other existing pairs of reported warehouses become 0, all other pairs keep their quantity, none disappears and none appears unreported |
| SnapshotModel.SnapshotWarehouseNames | app/services/apply_report.py:185-207 | each reported warehouse is named by its highest line, others keep their names, none is deleted |
| SnapshotModel.SnapshotProductNames | app/services/apply_report.py:209-231 | each reported product is named by its highest line, others keep their names, none is deleted |
| SnapshotModel.Idempotent | app/services/apply_report.py:283-349 | the same rows applied twice leave the state of applying them once |
| SnapshotModel.DisjointWarehousesCommute | app/services/apply_report.py:314-349 | snapshots with disjoint warehouse sets commute on the balances |
| SnapshotModel.ProductNamesDoNotCommute | app/services/apply_report.py:209-231 | two snapshots that name one product differently do not commute on product names |
| MapFolds.DistinctOnIsPutAll | app/services/apply_report.py:192-198 | taking the last line of each key is the same as writing all lines one by one |
| MapFolds.OrderExact | app/services/apply_report.py:284-312 | lines written in any order leave the last value of every key iff each key ends on the value of its highest line |
| StockTables.NoRowLost | app/services/apply_report.py:300-303 | once both catalogs know every reported code the inner joins lose no staged row |
| StockTables.CodedUnchanged | app/models.py:111-137 | new catalog rows have new ids, so no balance changes its meaning by code |
| StockTables.InsertionExact | app/services/apply_report.py:284-312 | for every order of the joined rows the insertion goes through iff only the row processed last of each pair changes it; otherwise it touches a row twice and raises |
| StockTables.InsertionWrites | app/services/apply_report.py:284-312 | an insertion that goes through has written every row in that order, and touched exactly the pairs it created or changed |
| StockTables.AnyOrderIfUnique | app/services/apply_report.py:284-312 | with unique pairs every order goes through, all with the same balances |
| StockTables.OrderMatters | app/services/apply_report.py:284-312 | for a repeated pair one order raises and another leaves a quantity that the row-by-row fold does not: the statement fixes no order |
| StockTables.SnapshotOrderExact | app/services/apply_report.py:283-349 | what an order leaves is the row-by-row fold iff each pair ends on the quantity of its highest line |
| StockTables.ApplyIsSnapshot | app/services/apply_report.py:83-142 | the set-based statements through the ids, in any insertion order, have when they go through the meaning of the row-by-row fold iff each pair ends on the quantity of its highest line; with unique pairs they always go through and have it |
| StockTables.ApplyKeepsTablesValid | app/models.py:85-137 | unique ids and the foreign keys of the balances survive the transaction |
| ApplyCounters.CountersClassify | app/services/apply_report.py:42-58 | whenever the insertion goes through, in any order and for any pairs, the counters computed by the joins are the sums of the classification over all pairs |
| ApplyCounters.ClassesAreChanges | app/services/apply_report.py:233-281 | created pairs are the new keys of the balance table, updated and zeroed ones the old keys whose quantity really changed, disjointly |
| ApplyCounters.LinesPartition | app/services/apply_report.py:257-264 | every joined line is counted as created, as updated, or finds its pair with its own quantity |
| ApplyCounters.CountersExact | app/services/apply_report.py:114-116 | whenever the transaction goes through, the counters taken before the write are the difference it makes to the balances, and created, updated and unchanged lines add up to the rows of the report |
| ApplyCounters.ApplyAgain | app/services/apply_report.py:83-142 | the same rows with unique pairs applied again, in any order, change nothing and count 0, 0, 0 |
| StockHistory.StoredCountersExact | app/services/apply_report.py:83-142 | in every run the step that applies a report stores with it counters that are exact for the balances before and after that step |
| StockStatements.UpsertCatalog | app/services/apply_report.py:185-231 | the row-by-row upsert with ids from the sequence is the set-based one, for ids that are new and distinct |
| StockStatements.LastValues | app/services/apply_report.py:193-199 | scanning the lines gives the name of the highest line of each code |
| StockStatements.InsertLines | app/services/apply_report.py:284-312 | the insertion in a given order, up to the first row that it would touch twice |
| StockStatements.ApplyRows | app/services/apply_report.py:106-126 | the statements one after the other on a working copy, with an insertion order that is left open, are the apply transaction |
| ReportDatabase.Database.SelectFirstOpen | app/services/report_processing.py:410-416 | the first pending or processing report in queue order |
| ReportDatabase.Database.ClaimOrRecover | app/services/report_processing.py:408-443 | the oldest open report is handed to apply when its validation is complete, otherwise it is cleared and restarted; nothing else changes |
| ReportDatabase.Database.CheckValidation | app/services/report_processing.py:445-457 | the counting test that recovery decides by |
| ReportDatabase.Database.InsertStagingBatch | app/services/report_processing.py:110-118 | a batch is stored as a whole, or not at all when it meets an existing or repeated key |
| ReportDatabase.Database.InsertErrorBatch | app/services/report_processing.py:110-118 | the errors are appended in order |
| ReportDatabase.Database.InsertDuplicateErrors | app/services/report_processing.py:229-293 | the loop appends the errors that DuplicateRows.DuplicateIssuesExact determines |
| ReportDatabase.Database.FinalizeValidationFailure | app/services/report_processing.py:304-323 | staging is deleted in any case, the report row gets its row count, error count and failure only while it is processing; what the counts are is stated by RowCountsStored and ErrorsOfFailure |
| ReportDatabase.Database.FinalizeValidation | app/services/report_processing.py:210-216 | the row count is recorded only while the report is processing |
| ReportDatabase.Database.MarkProcessingFailed | app/services/report_processing.py:459-490 | staging is deleted and the error stored in any case, the report fails with the number of its stored errors only while it is processing |
| ReportDatabase.Database.MarkApplyFailed | app/services/report_processing.py:492-526 | the same for a failed apply, with the counters reset |
| ReportDatabase.Database.Apply | app/services/apply_report.py:83-142 | the whole transaction commits or leaves all tables alone; ids it took are gone either way |
| ReportStore.CleanByCount | app/services/csv_validation.py:46-49 | an original has as many valid rows as counted records iff none was rejected |
| ReportStore.AsManyIsAll | app/services/report_processing.py:445-457 | the pigeonhole: staged rows that are part of the original and as many are all of it |
| WorkerProtocol.CountingIsSound | app/services/report_processing.py:445-457 | a report with the invariant that passes the counting test has exactly the rows of its clean original staged |
| StockHistory.HistoryGrows | app/services/apply_report.py:83-142 | a report that completes adds its snapshot at the end of the history |
| WorkerProtocol.TransactKeeps | app/services/report_processing.py:351-443 | every transaction of any worker, with or without the lock, keeps the invariant |
| WorkerSafety.StepKeeps | app/services/report_processing.py:351-526 | every step keeps the invariant: registration, acquisition, loss of the lock, crash, fault, unacknowledged commit |
| WorkerSafety.NothingOvertakes | app/services/report_processing.py:408-443 | in every reachable state whatever has left pending has only closed reports before it |
| StockHistory.StockIsHistoryExactly | app/services/report_processing.py:351-457 | in every run, for any interleaving and any insertion orders, the stock tables have always been the fold of the validated originals of the completed reports in queue order iff every apply ended each pair on the quantity of its highest line |
| StockHistory.UniqueCompletedMakeHistory | app/services/report_processing.py:351-457 | every reachable state in which no completed original repeats a pair holds that fold, whatever the interleaving and the insertion orders |
| GuardedClaims.ReadyIsUnique | app/services/report_processing.py:408-457 | in every run whose claims are made with the lock a report taken for validated has unique pairs, whatever late batches, decisions, marks, faults, crashes and unacknowledged commits come between |
| GuardedClaims.CompletedIsUnique | app/services/report_processing.py:408-457 | in such a run no completed original repeats a pair |
| GuardedClaims.StockIsAlwaysHistory | app/services/report_processing.py:351-457 | in such a run the stock tables are the fold in every reachable state, for every insertion order |
| WorkerSafety.ReadinessIsSound | app/services/report_processing.py:445-457 | in every reachable state a report taken for validated has staged exactly the rows of its original, which has no rejected record |
| WorkerSafety.RowCountsStored | app/services/report_processing.py:304-323 | in every reachable state of every interleaving a report that failed by validation, or is completed, has as row count the counted records of its original; exactly failed reports have a kind of failure, and only completed ones counted changes |
| WorkerSafety.FaultIsMarked | app/services/report_processing.py:364-406 | an exception in any stage, then the check of the lock and the next transaction, leave a report failed with an error that tells a validation from an apply, and the stock untouched |
| WorkerSafety.ClosedIsFinal | app/services/report_processing.py:210-216 | the report row of a completed or failed report never changes again, whatever a late worker does |
| WorkerSafety.StockChangesOnlyOnApply | app/services/apply_report.py:83-142 | the stock tables change only in the step that sets a report completed |
| WorkerSafety.AppliedOnceIffCompleted | app/services/apply_report.py:83-142 | in every run the snapshot of a report has been applied once if it is completed and never otherwise |
| WorkerSafety.AtMostOneMoreCommit | app/services/report_processing.py:110-118 | after its lock is gone, and until it acquires the lock anew, a worker commits at most one more transaction, and none unless it had already checked the lock for it or acquired the lock for its claim |
| ExclusiveRuns.NoErrorIffValid | app/services/report_processing.py:186-205 | after the duplicate check a report has no stored error iff its original is clean and its pairs are unique |
| ExclusiveRuns.DecisionNeverRaises | app/services/report_processing.py:207-208 | the validator never ends without an error and without a complete stream, so the RuntimeError is unreachable |
| ExclusiveRuns.ApplyNeverRaises | app/services/apply_report.py:83-142 | under the lock no statement of the apply of a validated report raises |
| ExclusiveRuns.HolderTransacts | app/services/report_processing.py:351-526 | every transaction of the lock holder keeps the stored facts and what its position says about them |
| ExclusiveRuns.StoredFactsUnderLock | app/services/report_processing.py:304-323 | when only the lock holder commits, told of its commits or not: closed reports have no staging, a failed one has stored errors, a completed one a valid original, and a ready one unique pairs |
| ExclusiveRuns.ErrorsOfFailure | app/services/report_processing.py:155-205 | in such a run a report that failed by validation counts the records of its original and stores their issues in order, then exactly one error for each row that repeats a pair; only later marks can follow |
| ExclusiveRuns.ErrorsExact | app/services/report_processing.py:459-526 | in such a run a closed report stores as many errors as it counts, and one more for every failure marked after it was closed |
| ExclusiveRuns.ErrorsCounted | app/services/report_processing.py:459-526 | when the worker is told of the commits that close a report (a decision on counted errors, an apply), a closed report counts exactly its stored errors and a completed one has none |
| ExclusiveRuns.UnacknowledgedBreaks | app/services/report_processing.py:492-526 | that condition is needed: from any such commit that is not acknowledged, the next check and commit of the holder lead to a closed report with more stored errors than it counts |
| LateClaims.ReadyWithoutUniquePairs | app/services/report_processing.py:408-443 | a run with three workers, two of them late, in which a report is ready with one pair on two lines: the claim does not check the lock after acquiring it |
| LateClaims.StockIsNotHistory | app/services/apply_report.py:284-312 | that report applied in an insertion order which the statement leaves open: the step after which the stock tables are no longer the fold |
| LateClaims.CompletedWithStoredError | app/services/report_processing.py:364-387 | a run with the lock held throughout in which an apply commits without its worker being told: a completed report with a stored apply error and an error count of 0 |
| LateClaims.CommitAfterLoss | app/services/report_processing.py:408-443 | a run with a commit after the loss of the lock, so the bound on such commits is met |
| QueueDrain.RankNeverRises | app/services/report_processing.py:351-443 | when only the lock holder commits, told of it or not, no step but registration raises the total rank, and a transaction that ends work on an open report lowers it |
| QueueDrain.RankBound | app/services/report_processing.py:351-443 | n reports have a total rank of at most 2n, and 0 iff none is open |
| QueueDrain.NoKeyConflict | app/services/report_processing.py:110-118 | the batches of the lock holder never meet a row already stored |
| WorkerCycle.StepDecides | app/services/report_processing.py:351-443 | without faults a report is completed only for a valid original and failed only for an invalid one, with the row count and exactly the errors that the original calls for |
| WorkerCycle.CycleSettles | app/services/report_processing.py:351-406 | a fault-free cycle keeps all invariants; it lowers the total rank when a report is open and changes nothing otherwise |
| WorkerCycle.OutcomeTells | app/services/report_processing.py:26-34 | the outcome of a cycle is what is stored for the report it claimed: status, failure, row count, error count and errors |
| RunSegments.PathIsCycle | app/services/report_processing.py:351-406 | every path of transactions from the acquired lock to its end is a segment of a run of the state machine: acquire, then checks and commits of that worker, then release |
| RunSegments.CycleIsPath | app/services/report_processing.py:351-406 | and every such segment of a run is a path of transactions |
| ReportProcessing.ReportProcessor.WriteBatches | app/services/report_processing.py:170-186 | the loop over the batches is a path of the protocol, ending in an exception at a key conflict |
| ReportProcessing.ReportProcessor.Decide | app/services/report_processing.py:192-227 | the decision after the error count is a step of the protocol |
| ReportProcessing.ReportProcessor.ValidateReport | app/services/report_processing.py:155-227 | a validation attempt is a path of the protocol to its end or to an exception |
| ReportProcessing.ReportProcessor.Process | app/services/report_processing.py:351-406 | a cycle of the program is a path of the protocol from the acquired lock to its release, with the outcome of its last transaction |
| ReportProcessing.ReportProcessor.Cycle | app/services/report_processing.py:351-406 | the same cycle as part of a run: the database stays one that a run with the lock held reaches, and an open report comes closer to the end |
| ReportProcessing.ReportProcessor.Register | app/services/reports.py:60-125 | a stored original and a pending report are added at the end of the queue |
| ReportProcessing.ReportProcessor.DrainQueue | app/worker.py:28-41 | n reports are finished in at most 2n cycles that find one; then each has ended as its original deserves (completed; failed with its row count, the issues of its records and one error per repeated pair; or failed by an exception) and the stock is that of the valid ones |
| ReportProcessing.ImportAll | app/worker.py:28-41 | originals registered on an empty database and worked off leave the fold of the snapshots of the valid ones, whatever their pieces, the batch size and the limits, and the database is one that a run of the state machine reaches |
| ImportRuns.CompletedTextsAreClean | app/services/report_processing.py:351-526 | in every run no text of a completed report has a rejected record |
| ImportRuns.CompletedTextsAreValid | app/services/report_processing.py:351-526 | in every run whose claims are made with the lock those texts also report no pair twice |
| ImportRuns.StockIsThatOfTexts | app/services/report_processing.py:351-526 | in such a run the stock is the fold over the texts of the completed reports, whatever the interleaving and the insertion orders |
| ImportRuns.StockOfUniqueTexts | app/services/report_processing.py:351-526 | in any run the stock is that fold when no text of a completed report repeats a pair |
| ImportRuns.PrintedRowsAreImported | app/services/csv_validation.py:106-263 | a printed report, with any white space around its values and any additional columns, stands for exactly the printed rows, and is a valid original iff no pair is printed twice |
| Upload.ReadPart | app/services/storage.py:164-175 | a part is the next bytes of the source, full unless the source has ended; which of the two errors it raises, if any, is decided by the first read that fails or returns too much |
| Upload.StreamParts | app/services/storage.py:86-110 | the parts are numbered from 1, all full but the last, and hold the content in order; the checksum is over the same bytes; the limit stops the loop iff it is exceeded |
| Upload.UploadStream | app/services/storage.py:67-125 | for every fragmentation: a returned upload has stored exactly the content under its true size; FileTooLarge means a longer content and no object; on every error the abort of the upload it had been told of has been asked for; without faults the limit alone decides, nothing stays open and at most max_bytes and one part are read |
| Upload.PartCount | app/services/storage.py:16-17 | the number of parts is the size over the part size, rounded up, so 1 GiB takes at most 128 |

## Left out

- HTTP routes, schemas, health checks, settings, logging, signals, migrations, pagination and downloads: no property beyond plumbing.
- PostgreSQL, SQLAlchemy and boto3 internals: a transaction is one atomic step, the storage service an abstract client with open uploads, parts, objects and faults.
- SHA-256: the upload keeps the bytes that were digested instead of their hash.
- UTF-8 and BOM decoding, and the buffering between the raw reader and the text reader: the splitter starts from pieces of decoded text.
- Messages, timestamps and the raw data attached to stored errors: issues carry line, column and code; the bounding of raw data is modelled on its own.
- NUL characters, which PostgreSQL refuses in text: in the protocol such an insertion is a fault of the transaction.
- Lazy evaluation of the generator and the callback before each chunk: records are collected before they are validated; the checks of the lock are steps of the protocol.
- The polling interval and the worker that does not get the lock: a cycle without the lock changes nothing.
- ReportProcessing.ReportProcessor.DrainQueue: stops when no report is open, where the worker loop polls on until it is told to stop; it covers cycles without faults, those with faults are covered by the runs of the protocol.
- ReportProcessing.ReportProcessor.ValidateReport: computes the whole verdict before it writes the batches, where the source writes while it reads; the batches and their order are the same.
- StockStatements.ApplyRows: works on a copy of the stock tables that is published at the commit, so it does not show other sessions reading between the statements.
- Upload.UploadStream: takes the fragments of the source as given in advance, so a source whose fragments depend on the requested sizes is covered fragment by fragment and not as a program.
- A bound on the number of items of a bounded raw-data list: empty strings cost nothing against the total.
