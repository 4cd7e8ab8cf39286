/** What every record of a text leads to, in terms of its characters. */
module RecordOutcomes {
  import opened Common
  import opened CsvSplitter
  import opened CsvRecords
  import opened CsvReader
  import opened CsvSyntax
  import opened CsvValidation
  import opened CsvAccounting
  import opened Quantities
  import opened PrintedReports

  // ---------------------------------------------------------------------
  // One record
  // ---------------------------------------------------------------------

  /** No field holds a code point that stands for an undecodable byte. */
  predicate Decodable(fields: seq<Text>) {
    forall i, k :: 0 <= i < |fields| && 0 <= k < |fields[i]| ==> fields[i][k] < 0xDC80 || 0xDCFF < fields[i][k]
  }

  lemma UndecodableFound(fields: seq<Text>)
    ensures HasSurrogate(fields) <==> !Decodable(fields)
  {
  }

  /** The quantity has more digits than are converted. */
  ghost predicate TooManyToConvert(fields: seq<Text>, header: seq<Text>)
    requires CompleteHeader(header) && |fields| == |header|
  {
    exists sign, z: nat, n: nat :: IsNumeral(Value(fields, header, Quantity), sign, z, n) && z + |Digits(n)| > 4300
  }

  /** What a row of the right width leads to. */
  ghost predicate RowDeserves(fields: seq<Text>, header: seq<Text>, line: nat, check: RowCheck)
    requires CompleteHeader(header) && |fields| == |header|
  {
    && (check.Raises? <==> TooManyToConvert(fields, header))
    && match check
       case Accepted(row) => row.line == line && HoldsRow(fields, header, row) && GoodRow(row)
       case Rejected(issues) =>
         issues != [] && forall c, code ::
           Issue(Some(line), Some(c), code) in issues <==> RowFault(fields, header, c, code)
       case Fatal(_) => false
       case Raises => true
  }

  ghost predicate FieldsDeserve(fields: seq<Text>, header: seq<Text>, line: nat, check: RowCheck)
    requires CompleteHeader(header)
  {
    if !Decodable(fields) then check == Rejected([Issue(Some(line), None, InvalidUtf8)])
    else if |fields| != |header| then check == Rejected([Issue(Some(line), None, InvalidColumnCount)])
    else RowDeserves(fields, header, line, check)
  }

  ghost predicate Malformed(full: Text, limit: nat) {
    HasStray(full, limit) || HasOpenQuote(full, limit)
  }

  /** What a record of unbounded text `full` leads to. */
  ghost predicate Deserves(full: Text, header: seq<Text>, line: nat, lim: Limits, check: RowCheck)
    requires CompleteHeader(header) && ValidLimits(lim)
  {
    if |full| > lim.maxRecord then check == Rejected([Issue(Some(line), None, CsvRecordTooLarge)])
    else if HasLongField(full, lim.maxField) then check == Rejected([Issue(Some(line), None, CsvFieldTooLarge)])
    else if Malformed(full, lim.maxField) then check == Fatal(Issue(Some(line), None, MalformedRecord))
    else exists fields :: PrintsFields(full, fields, lim.maxField) && FieldsDeserve(fields, header, line, check)
  }

  lemma RowGets(fields: seq<Text>, header: seq<Text>, line: nat)
    requires CompleteHeader(header) && |fields| == |header|
    ensures RowDeserves(fields, header, line, CheckRow(fields, header, line))
  {
    var check := CheckRow(fields, header, line);
    NumberExact(Value(fields, header, Quantity));
    match check
    case Accepted(row) => RowAccepted(fields, header, line, row);
    case Rejected(issues) => RowRejected(fields, header, line, issues);
    case _ =>
  }

  lemma RowAccepted(fields: seq<Text>, header: seq<Text>, line: nat, row: ValidatedRow)
    requires CompleteHeader(header) && |fields| == |header| && CheckRow(fields, header, line) == Accepted(row)
    ensures row.line == line && HoldsRow(fields, header, row) && GoodRow(row)
  {
    RowChecked(fields, header, line);
    AcceptedExactly(fields, header, row);
  }

  lemma RowRejected(fields: seq<Text>, header: seq<Text>, line: nat, issues: seq<Issue>)
    requires CompleteHeader(header) && |fields| == |header| && CheckRow(fields, header, line) == Rejected(issues)
    ensures issues != []
    ensures forall c, code :: Issue(Some(line), Some(c), code) in issues <==> RowFault(fields, header, c, code)
  {
    RowChecked(fields, header, line);
    forall c, code
      ensures Issue(Some(line), Some(c), code) in issues <==> RowFault(fields, header, c, code)
    {
      RowIssuesExact(fields, header, line, c, code);
    }
  }

  lemma FieldsGet(fields: seq<Text>, header: seq<Text>, line: nat)
    requires CompleteHeader(header)
    ensures FieldsDeserve(fields, header, line,
                          if HasSurrogate(fields) then Rejected([Issue(Some(line), None, InvalidUtf8)])
                          else CheckRow(fields, header, line))
  {
    UndecodableFound(fields);
    if |fields| == |header| {
      RowGets(fields, header, line);
    }
  }

  /** A record gets exactly what its text deserves. */
  lemma RecordOutcome(full: Text, header: seq<Text>, line: nat, lim: Limits)
    requires IsRecord(full) && CompleteHeader(header) && ValidLimits(lim)
    ensures Deserves(full, header, line, lim,
                     CheckRecord(Collapse(full, lim.maxRecord, lim.rawValue), header, line, lim))
  {
    if |full| <= lim.maxRecord {
      MalformedExactly(full, lim.maxField);
      TooLargeExactly(full, lim.maxField);
      match ParseRecord(full, lim.maxField)
      case Fields(fields) =>
        FieldsExactly(full, lim.maxField, fields);
        FieldsGet(fields, header, line);
      case _ =>
    }
  }

  /** A record is accepted as a row exactly when it is within the limit, prints
      decodable fields that hold the row, and the row is a good one. */
  lemma AcceptedRecordExactly(full: Text, header: seq<Text>, lim: Limits, row: ValidatedRow)
    requires IsRecord(full) && CompleteHeader(header) && ValidLimits(lim)
    ensures CheckRecord(Collapse(full, lim.maxRecord, lim.rawValue), header, row.line, lim) == Accepted(row) <==>
              && |full| <= lim.maxRecord && GoodRow(row)
              && exists fields :: PrintsFields(full, fields, lim.maxField) && Decodable(fields)
                                  && HoldsRow(fields, header, row)
  {
    if |full| <= lim.maxRecord {
      forall fields | PrintsFields(full, fields, lim.maxField)
        ensures ParseRecord(full, lim.maxField) == Fields(fields)
        ensures HasSurrogate(fields) <==> !Decodable(fields)
        ensures CheckRow(fields, header, row.line) == Accepted(row) <==> HoldsRow(fields, header, row) && GoodRow(row)
      {
        FieldsExactly(full, lim.maxField, fields);
        UndecodableFound(fields);
        AcceptedExactly(fields, header, row);
      }
      match ParseRecord(full, lim.maxField)
      case Fields(fields) => FieldsExactly(full, lim.maxField, fields);
      case _ =>
    }
  }

  // ---------------------------------------------------------------------
  // The records of a text
  // ---------------------------------------------------------------------

  /** The first record of the text is an acceptable header. */
  ghost predicate HasHeader(text: Text, lim: Limits, header: seq<Text>) {
    && ValidLimits(lim) && Records(text) != [] && |Records(text)[0]| <= lim.maxRecord
    && PrintsFields(Records(text)[0], header, lim.maxField) && Decodable(header) && CompleteHeader(header)
  }

  function DataRecords(text: Text, lim: Limits): seq<LogicalRecord>
    requires ValidLimits(lim) && Records(text) != []
  {
    CollapseAll(Records(text), lim.maxRecord, lim.rawValue)[1..]
  }

  /** What the validator makes of a header that is all there is, or not acceptable. */
  ghost predicate HeaderDeserves(text: Text, lim: Limits, v: Verdict) {
    if !ValidLimits(lim) then v == Verdict([], 0, false, true)
    else if text == [] then v == Verdict([OnIssues([Issue(None, None, MissingHeader)])], 0, true, false)
    else if Records(text) == [] then false
    else
      var first := Records(text)[0];
      if |first| > lim.maxRecord then v == Refused([Issue(None, None, CsvRecordTooLarge)])
      else if HasLongField(first, lim.maxField) then v == Refused([Issue(None, None, CsvFieldTooLarge)])
      else if Malformed(first, lim.maxField) then v == Refused([Issue(Some(1), None, MalformedRecord)])
      else exists header :: PrintsFields(first, header, lim.maxField) && FieldsAsHeader(text, header, lim, v)
  }

  /** The columns that are missing or occur at two places. */
  ghost predicate ColumnsReported(issues: seq<Issue>, header: seq<Text>) {
    && issues != []
    && (forall c :: Issue(None, Some(c), MissingRequiredColumn) in issues <==> ColumnName(c) !in header)
    && forall c :: Issue(None, Some(c), DuplicateRequiredColumn) in issues <==>
                     exists i, j :: 0 <= i < j < |header| && header[i] == ColumnName(c) == header[j]
  }

  ghost predicate FieldsAsHeader(text: Text, header: seq<Text>, lim: Limits, v: Verdict)
    requires ValidLimits(lim) && Records(text) != []
  {
    if !Decodable(header) then v == Refused([Issue(None, None, InvalidUtf8)])
    else if !CompleteHeader(header) then exists issues :: v == Refused(issues) && ColumnsReported(issues, header)
    else if |Records(text)| == 1 then v == Verdict([OnIssues([Issue(None, None, NoDataRows)])], 0, true, false)
    else v == CheckData(DataRecords(text, lim), header, 1, lim)
  }

  lemma TextWithoutRecords(text: Text)
    ensures Records(text) == [] <==> text == []
  {
    NothingLost(text);
    if text != [] {
      assert Weave(Records(text), text, false);
    }
  }

  lemma ColumnsAre(header: seq<Text>)
    requires !CompleteHeader(header)
    ensures ColumnsReported(HeaderIssues(header, 5), header)
  {
    HeaderIssuesExact(header);
    forall c
      ensures Issue(None, Some(c), MissingRequiredColumn) in HeaderIssues(header, 5) <==> ColumnName(c) !in header
      ensures Issue(None, Some(c), DuplicateRequiredColumn) in HeaderIssues(header, 5) <==>
                exists i, j :: 0 <= i < j < |header| && header[i] == ColumnName(c) == header[j]
    {
      HeaderIssuesMean(header, c);
    }
  }

  lemma HeaderFields(text: Text, header: seq<Text>, lim: Limits)
    requires ValidLimits(lim) && Records(text) != [] && |Records(text)[0]| <= lim.maxRecord
    requires ParseRecord(Records(text)[0], lim.maxField) == Fields(header)
    ensures FieldsAsHeader(text, header, lim, Validate(text, lim))
  {
    UndecodableFound(header);
    HeaderIssuesExact(header);
    if !CompleteHeader(header) {
      ColumnsAre(header);
    }
  }

  /** For every text: the one verdict that its header calls for. */
  lemma HeaderOutcome(text: Text, lim: Limits)
    ensures HeaderDeserves(text, lim, Validate(text, lim))
  {
    TextWithoutRecords(text);
    if ValidLimits(lim) && text != [] && |Records(text)[0]| <= lim.maxRecord {
      var first := Records(text)[0];
      AllAreRecords(text);
      MalformedExactly(first, lim.maxField);
      TooLargeExactly(first, lim.maxField);
      match ParseRecord(first, lim.maxField)
      case Fields(header) =>
        FieldsExactly(first, lim.maxField, header);
        HeaderFields(text, header, lim);
      case _ =>
    }
  }

  /** Data records have been counted only behind an acceptable header. */
  lemma HeaderAccepted(text: Text, lim: Limits) returns (header: seq<Text>)
    requires Validate(text, lim).rowCount > 0
    ensures HasHeader(text, lim, header) && |Records(text)| > 1
    ensures Validate(text, lim) == CheckData(DataRecords(text, lim), header, 1, lim)
  {
    HeaderOutcome(text, lim);
    var first := Records(text)[0];
    header :| PrintsFields(first, header, lim.maxField) && FieldsAsHeader(text, header, lim, Validate(text, lim));
  }

  // ---------------------------------------------------------------------
  // One event for each record, and where reading stops
  // ---------------------------------------------------------------------

  function EventFor(check: RowCheck): Option<Event> {
    match check
    case Accepted(row) => Some(OnValidRow(row))
    case Rejected(issues) => Some(OnIssues(issues))
    case Fatal(issue) => Some(OnIssues([issue]))
    case Raises => None
  }

  predicate Stops(check: RowCheck) {
    check.Fatal? || check.Raises?
  }

  type Checker = (LogicalRecord, nat) -> RowCheck

  /** The check of records on their lines. */
  function RecordChecker(header: seq<Text>, lim: Limits): Checker
    requires CompleteHeader(header) && lim.maxField >= 0
  {
    (record: LogicalRecord, line: nat) => CheckRecord(record, header, line, lim)
  }

  /** What the records after line `line` lead to, one by one. */
  function Checks(records: seq<LogicalRecord>, line: nat, checker: Checker): (checks: seq<RowCheck>)
    ensures |checks| == |records|
    decreases |records|
  {
    if records == [] then [] else [checker(records[0], line + 1)] + Checks(records[1..], line + 1, checker)
  }

  lemma {:induction false} CheckAt(records: seq<LogicalRecord>, line: nat, checker: Checker, k: nat)
    requires k < |records|
    ensures Checks(records, line, checker)[k] == checker(records[k], line + 1 + k)
    decreases k
  {
    if k > 0 {
      CheckAt(records[1..], line + 1, checker, k - 1);
      assert records[1..][k - 1] == records[k];
    }
  }

  function Folded(checks: seq<RowCheck>): Verdict {
    if checks == [] then Verdict([], 0, true, false) else Consumed(checks[0], Folded(checks[1..]))
  }

  lemma FoldedHead(check: RowCheck, rest: seq<RowCheck>)
    ensures Folded([check] + rest) == Consumed(check, Folded(rest))
  {
    assert ([check] + rest)[1..] == rest;
  }

  lemma DataHead(records: seq<LogicalRecord>, header: seq<Text>, line: nat, lim: Limits)
    requires CompleteHeader(header) && lim.maxField >= 0 && records != []
    ensures CheckData(records, header, line, lim)
         == Consumed(RecordChecker(header, lim)(records[0], line + 1), CheckData(records[1..], header, line + 1, lim))
  {
  }

  lemma {:induction false} DataFolds(records: seq<LogicalRecord>, header: seq<Text>, line: nat, lim: Limits)
    requires CompleteHeader(header) && lim.maxField >= 0
    ensures CheckData(records, header, line, lim) == Folded(Checks(records, line, RecordChecker(header, lim)))
    decreases |records|
  {
    if records != [] {
      var checker := RecordChecker(header, lim);
      DataFolds(records[1..], header, line + 1, lim);
      DataHead(records, header, line, lim);
      FoldedHead(checker(records[0], line + 1), Checks(records[1..], line + 1, checker));
    }
  }

  predicate EventsAre(v: Verdict, checks: seq<RowCheck>) {
    |v.events| <= |checks| && forall k :: 0 <= k < |v.events| ==> EventFor(checks[k]) == Some(v.events[k])
  }

  /** Reading stops with the first record that stops it. */
  predicate StopsWhere(v: Verdict, checks: seq<RowCheck>) {
    && v.rowCount <= |checks|
    && (v.reachedEof ==> v.rowCount == |checks|)
    && (!v.reachedEof ==> v.rowCount > 0 && Stops(checks[v.rowCount - 1]))
    && (forall k :: 0 <= k < v.rowCount && Stops(checks[k]) ==> !v.reachedEof && k == v.rowCount - 1)
  }

  lemma {:induction false} FoldedEvents(checks: seq<RowCheck>)
    ensures EventsAre(Folded(checks), checks) && StopsWhere(Folded(checks), checks)
  {
    if checks != [] {
      FoldedEvents(checks[1..]);
      var rest := Folded(checks[1..]);
      match checks[0]
      case Accepted(row) => FoldedNext(checks, OnValidRow(row), rest);
      case Rejected(issues) => FoldedNext(checks, OnIssues(issues), rest);
      case _ =>
    }
  }

  lemma FoldedNext(checks: seq<RowCheck>, event: Event, rest: Verdict)
    requires checks != [] && EventsAre(rest, checks[1..]) && StopsWhere(rest, checks[1..])
    requires EventFor(checks[0]) == Some(event) && !Stops(checks[0])
    ensures EventsAre(Before(event, rest), checks) && StopsWhere(Before(event, rest), checks)
  {
    assert forall k :: 0 < k < |checks| ==> checks[1..][k - 1] == checks[k];
  }

  lemma DataRecordIs(text: Text, lim: Limits, k: nat)
    requires ValidLimits(lim) && 0 < k < |Records(text)|
    ensures |DataRecords(text, lim)| == |Records(text)| - 1
    ensures DataRecords(text, lim)[k - 1] == Collapse(Records(text)[k], lim.maxRecord, lim.rawValue)
  {
  }

  lemma CheckOf(text: Text, lim: Limits, checker: Checker, k: nat)
    requires ValidLimits(lim) && 0 < k < |Records(text)|
    ensures k - 1 < |DataRecords(text, lim)|
    ensures Checks(DataRecords(text, lim), 1, checker)[k - 1]
         == checker(Collapse(Records(text)[k], lim.maxRecord, lim.rawValue), k + 1)
  {
    DataRecordIs(text, lim, k);
    CheckAt(DataRecords(text, lim), 1, checker, k - 1);
  }

  /** What data record `k` of the text, counted from 1 for the first behind the header,
      leads to. */
  lemma DataOutcome(text: Text, lim: Limits, header: seq<Text>, k: nat) returns (check: RowCheck)
    requires ValidLimits(lim) && CompleteHeader(header) && 0 < k < |Records(text)|
    ensures k - 1 < |DataRecords(text, lim)|
    ensures check == Checks(DataRecords(text, lim), 1, RecordChecker(header, lim))[k - 1]
    ensures Deserves(Records(text)[k], header, k + 1, lim, check)
  {
    CheckOf(text, lim, RecordChecker(header, lim), k);
    CheckedAs(text, lim, header, k);
    check := Checks(DataRecords(text, lim), 1, RecordChecker(header, lim))[k - 1];
  }

  lemma CheckedAs(text: Text, lim: Limits, header: seq<Text>, k: nat)
    requires ValidLimits(lim) && CompleteHeader(header) && k < |Records(text)|
    ensures Deserves(Records(text)[k], header, k + 1, lim,
                     RecordChecker(header, lim)(Collapse(Records(text)[k], lim.maxRecord, lim.rawValue), k + 1))
  {
    AllAreRecords(text);
    RecordOutcome(Records(text)[k], header, k + 1, lim);
  }

  lemma EventAt(records: seq<LogicalRecord>, header: seq<Text>, lim: Limits, k: nat)
    requires CompleteHeader(header) && lim.maxField >= 0 && k < |CheckData(records, header, 1, lim).events|
    ensures k < |records|
    ensures EventFor(Checks(records, 1, RecordChecker(header, lim))[k])
         == Some(CheckData(records, header, 1, lim).events[k])
  {
    DataFolds(records, header, 1, lim);
    FoldedEvents(Checks(records, 1, RecordChecker(header, lim)));
  }

  lemma CheckedRecords(text: Text, lim: Limits)
    requires ValidLimits(lim) && Records(text) != []
    ensures |DataRecords(text, lim)| == |Records(text)| - 1
  {
  }

  /** For every text with counted records: behind an acceptable header, each event is
      what the text of its record deserves on its line. */
  lemma EventOutcome(text: Text, lim: Limits, k: nat) returns (header: seq<Text>, check: RowCheck)
    requires k < |Validate(text, lim).events| && Validate(text, lim).rowCount > 0
    ensures HasHeader(text, lim, header) && k + 1 < |Records(text)|
    ensures EventFor(check) == Some(Validate(text, lim).events[k])
    ensures Deserves(Records(text)[k + 1], header, k + 2, lim, check)
  {
    header := HeaderAccepted(text, lim);
    EventAt(DataRecords(text, lim), header, lim, k);
    CheckedRecords(text, lim);
    check := DataOutcome(text, lim, header, k + 1);
  }

  /** No field of an accepted row, nor of the header above it, holds a code point that
      stands for an undecodable byte. */
  lemma AcceptedAreDecodable(text: Text, lim: Limits, k: nat) returns (header: seq<Text>, fields: seq<Text>)
    requires k < |Validate(text, lim).events| && Validate(text, lim).rowCount > 0
    requires Validate(text, lim).events[k].OnValidRow?
    ensures k + 1 < |Records(text)| && CompleteHeader(header)
    ensures PrintsFields(Records(text)[0], header, lim.maxField)
    ensures PrintsFields(Records(text)[k + 1], fields, lim.maxField)
    ensures HoldsRow(fields, header, Validate(text, lim).events[k].row)
    ensures forall i, j :: 0 <= i < |fields| && 0 <= j < |fields[i]| ==> !(0xDC80 <= fields[i][j] <= 0xDCFF)
    ensures forall i, j :: 0 <= i < |header| && 0 <= j < |header[i]| ==> !(0xDC80 <= header[i][j] <= 0xDCFF)
  {
    var check;
    header, check := EventOutcome(text, lim, k);
    fields := FieldsOfRow(Records(text)[k + 1], header, k + 2, lim, check);
  }

  lemma FieldsOfRow(full: Text, header: seq<Text>, line: nat, lim: Limits, check: RowCheck) returns (fields: seq<Text>)
    requires CompleteHeader(header) && ValidLimits(lim) && Deserves(full, header, line, lim, check) && check.Accepted?
    ensures PrintsFields(full, fields, lim.maxField) && Decodable(fields) && HoldsRow(fields, header, check.row)
  {
    fields :| PrintsFields(full, fields, lim.maxField) && FieldsDeserve(fields, header, line, check);
  }

  /** A counted record whose fields hold one is rejected for just that, on its line. */
  lemma UndecodableIsRejected(text: Text, lim: Limits, k: nat, fields: seq<Text>, i: nat, j: nat)
    requires k < |Validate(text, lim).events| && Validate(text, lim).rowCount > 0 && k + 1 < |Records(text)|
    requires |Records(text)[k + 1]| <= lim.maxRecord && lim.maxField >= 0
    requires PrintsFields(Records(text)[k + 1], fields, lim.maxField)
    requires i < |fields| && j < |fields[i]| && 0xDC80 <= fields[i][j] <= 0xDCFF
    ensures Validate(text, lim).events[k] == OnIssues([Issue(Some(k + 2), None, InvalidUtf8)])
  {
    var header, check := EventOutcome(text, lim, k);
    var full := Records(text)[k + 1];
    AllAreRecords(text);
    MalformedExactly(full, lim.maxField);
    TooLargeExactly(full, lim.maxField);
    FieldsExactly(full, lim.maxField, fields);
    var others :| PrintsFields(full, others, lim.maxField) && FieldsDeserve(others, header, k + 2, check);
    FieldsExactly(full, lim.maxField, others);
  }

  /** The text of a record that stops the reading: malformed, or with a number of more
      digits than are converted. */
  ghost predicate StopsReading(full: Text, header: seq<Text>, lim: Limits)
    requires CompleteHeader(header) && ValidLimits(lim)
  {
    |full| <= lim.maxRecord && (Malformed(full, lim.maxField) || CannotConvert(full, header, lim.maxField))
  }

  ghost predicate CannotConvert(full: Text, header: seq<Text>, limit: nat)
    requires CompleteHeader(header)
  {
    exists fields ::
      && PrintsFields(full, fields, limit) && Decodable(fields)
      && |fields| == |header| && TooManyToConvert(fields, header)
  }

  lemma StopsExactly(full: Text, header: seq<Text>, line: nat, lim: Limits, check: RowCheck)
    requires IsRecord(full) && CompleteHeader(header) && ValidLimits(lim) && Deserves(full, header, line, lim, check)
    ensures Stops(check) <==> StopsReading(full, header, lim)
    ensures check.Raises? <==> |full| <= lim.maxRecord && CannotConvert(full, header, lim.maxField)
  {
    MalformedExactly(full, lim.maxField);
    TooLargeExactly(full, lim.maxField);
    forall fields | PrintsFields(full, fields, lim.maxField)
      ensures ParseRecord(full, lim.maxField) == Fields(fields)
    {
      FieldsExactly(full, lim.maxField, fields);
    }
  }

  lemma StopsAgree(text: Text, lim: Limits, header: seq<Text>, k: nat)
    requires HasHeader(text, lim, header) && 0 < k < |Records(text)|
    ensures Stops(Checks(DataRecords(text, lim), 1, RecordChecker(header, lim))[k - 1])
            <==> StopsReading(Records(text)[k], header, lim)
  {
    var check := DataOutcome(text, lim, header, k);
    AllAreRecords(text);
    StopsExactly(Records(text)[k], header, k + 1, lim, check);
  }

  /** The end is reached exactly when no record stops the reading, and else the count
      stops with the first that does. */
  ghost predicate StopsAtFirst(v: Verdict, fulls: seq<Text>, header: seq<Text>, lim: Limits)
    requires CompleteHeader(header) && ValidLimits(lim)
  {
    && (v.reachedEof <==> forall k :: 0 < k < |fulls| ==> !StopsReading(fulls[k], header, lim))
    && (v.reachedEof ==> v.rowCount == |fulls| - 1)
    && (!v.reachedEof ==>
          && 0 < v.rowCount < |fulls| && StopsReading(fulls[v.rowCount], header, lim)
          && forall k :: 0 < k < v.rowCount ==> !StopsReading(fulls[k], header, lim))
  }

  lemma StopsFound(v: Verdict, text: Text, lim: Limits, header: seq<Text>)
    requires HasHeader(text, lim, header)
    requires StopsWhere(v, Checks(DataRecords(text, lim), 1, RecordChecker(header, lim)))
    ensures StopsAtFirst(v, Records(text), header, lim)
  {
    var fulls := Records(text);
    forall k | 0 < k <= v.rowCount
      ensures StopsReading(fulls[k], header, lim) ==> !v.reachedEof && k == v.rowCount
    {
      StopsAgree(text, lim, header, k);
    }
    if !v.reachedEof {
      StopsAgree(text, lim, header, v.rowCount);
    }
  }

  /** Reading goes on behind every other record, one that is too large included. */
  lemma ReadingStopsExactly(text: Text, lim: Limits, header: seq<Text>)
    requires HasHeader(text, lim, header) && |Records(text)| > 1
    ensures StopsAtFirst(Validate(text, lim), Records(text), header, lim)
  {
    ValidatesData(text, lim, header);
    DataFolds(DataRecords(text, lim), header, 1, lim);
    FoldedEvents(Checks(DataRecords(text, lim), 1, RecordChecker(header, lim)));
    StopsFound(Validate(text, lim), text, lim, header);
  }

  lemma ValidatesData(text: Text, lim: Limits, header: seq<Text>)
    requires HasHeader(text, lim, header) && |Records(text)| > 1
    ensures Validate(text, lim) == CheckData(DataRecords(text, lim), header, 1, lim)
  {
    AllAreRecords(text);
    FieldsExactly(Records(text)[0], lim.maxField, header);
    HeaderFields(text, header, lim);
  }
}
