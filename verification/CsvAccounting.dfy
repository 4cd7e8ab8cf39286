/** Every data record is accounted for: one valid row or at least one issue. */
module CsvAccounting {
  import opened Common
  import opened CsvSplitter
  import opened CsvReader
  import opened CsvValidation

  function RowsOf(events: seq<Event>): seq<ValidatedRow> {
    if events == [] then []
    else (if events[0].OnValidRow? then [events[0].row] else []) + RowsOf(events[1..])
  }

  function IssuesOf(events: seq<Event>): seq<Issue> {
    if events == [] then []
    else (if events[0].OnIssues? then events[0].issues else []) + IssuesOf(events[1..])
  }

  predicate GoodRow(r: ValidatedRow) {
    && Stripped(r.warehouseCode) && Stripped(r.warehouseName)
    && Stripped(r.sku) && Stripped(r.productName)
    && r.quantity <= BIGINT_MAX
  }

  /** The event for the record with logical line number `line`. */
  predicate Fits(event: Event, line: nat) {
    match event
    case OnValidRow(row) => row.line == line && GoodRow(row)
    case OnIssues(issues) => issues != [] && forall i :: 0 <= i < |issues| ==> issues[i].line == Some(line)
  }

  lemma {:induction false} EmptyIssuesFit(row: seq<Text>, header: seq<Text>, line: nat, n: nat)
    requires |row| == |header| && CompleteHeader(header) && n <= 4
    ensures var issues := EmptyIssues(row, header, line, n);
            && (forall i :: 0 <= i < |issues| ==> issues[i].line == Some(line))
            && (issues == [] ==> forall k :: 0 <= k < n ==> Value(row, header, TEXT_COLUMNS[k]) != [])
  {
    if n > 0 {
      EmptyIssuesFit(row, header, line, n - 1);
    }
  }

  lemma {:induction false} EmptyIssueIn(row: seq<Text>, header: seq<Text>, line: nat, n: nat,
                                        c: Column, code: IssueCode)
    requires |row| == |header| && CompleteHeader(header) && n <= 4
    ensures Issue(Some(line), Some(c), code) in EmptyIssues(row, header, line, n) <==>
              code == Required && c in TEXT_COLUMNS[..n] && Value(row, header, c) == []
  {
    if n > 0 {
      var last := EmptyIssue(row, header, line, TEXT_COLUMNS[n - 1]);
      EmptyIssueIn(row, header, line, n - 1, c, code);
      EmptyIssueOf(row, header, line, TEXT_COLUMNS[n - 1], c, code);
      TakeColumn(n, c);
      InAppended(EmptyIssues(row, header, line, n - 1), last, Issue(Some(line), Some(c), code));
    }
  }

  lemma EmptyIssueOf(row: seq<Text>, header: seq<Text>, line: nat, column: Column, c: Column, code: IssueCode)
    requires |row| == |header| && CompleteHeader(header)
    ensures Issue(Some(line), Some(c), code) in EmptyIssue(row, header, line, column) <==>
              code == Required && c == column && Value(row, header, c) == []
  {
  }

  lemma TakeColumn(n: nat, c: Column)
    requires 0 < n <= 4
    ensures c in TEXT_COLUMNS[..n] <==> c in TEXT_COLUMNS[..n - 1] || c == TEXT_COLUMNS[n - 1]
  {
    assert TEXT_COLUMNS[..n] == TEXT_COLUMNS[..n - 1] + [TEXT_COLUMNS[n - 1]];
  }

  lemma InAppended(a: seq<Issue>, b: seq<Issue>, issue: Issue)
    ensures issue in a + b <==> issue in a || issue in b
  {
  }

  lemma QuantityIssueIn(number: Number, line: nat, c: Column, code: IssueCode)
    ensures Issue(Some(line), Some(c), code) in QuantityIssues(number, line) <==>
              c == Quantity && QuantityFault(number, code)
  {
  }

  predicate QuantityFault(number: Number, code: IssueCode) {
    match code
    case InvalidQuantity => number.NotInteger?
    case QuantityNegative => number.Integer? && number.value < 0
    case QuantityTooLarge => number.Integer? && number.value > BIGINT_MAX
    case _ => false
  }

  /** Why a row of the right width is rejected. */
  predicate RowFault(row: seq<Text>, header: seq<Text>, c: Column, code: IssueCode)
    requires |row| == |header| && CompleteHeader(header)
  {
    if c == Quantity then QuantityFault(ReadNumber(Value(row, header, Quantity)), code)
    else code == Required && Value(row, header, c) == []
  }

  lemma TextColumns(c: Column)
    ensures c in TEXT_COLUMNS[..4] <==> c != Quantity
  {
    assert TEXT_COLUMNS[..4] == [WarehouseCode, WarehouseName, Sku, ProductName];
    assert WarehouseCode in TEXT_COLUMNS[..4] && WarehouseName in TEXT_COLUMNS[..4];
    assert Sku in TEXT_COLUMNS[..4] && ProductName in TEXT_COLUMNS[..4];
  }

  lemma RowFaultIn(row: seq<Text>, header: seq<Text>, line: nat, c: Column, code: IssueCode)
    requires |row| == |header| && CompleteHeader(header)
    ensures var number := ReadNumber(Value(row, header, Quantity));
            Issue(Some(line), Some(c), code) in EmptyIssues(row, header, line, 4) + QuantityIssues(number, line)
            <==> RowFault(row, header, c, code)
  {
    EmptyIssueIn(row, header, line, 4, c, code);
    QuantityIssueIn(ReadNumber(Value(row, header, Quantity)), line, c, code);
    TextColumns(c);
  }

  /** A row of the right width is rejected with exactly the issues it deserves. */
  lemma RowIssuesExact(row: seq<Text>, header: seq<Text>, line: nat, c: Column, code: IssueCode)
    requires |row| == |header| && CompleteHeader(header)
    requires !ReadNumber(Value(row, header, Quantity)).TooManyDigits?
    ensures var check := CheckRow(row, header, line);
            (check.Rejected? && Issue(Some(line), Some(c), code) in check.issues) <==> RowFault(row, header, c, code)
  {
    RowFaultIn(row, header, line, c, code);
    var issues := EmptyIssues(row, header, line, 4) + QuantityIssues(ReadNumber(Value(row, header, Quantity)), line);
    assert issues != [] ==> CheckRow(row, header, line) == Rejected(issues);
  }

  lemma ValueStripped(row: seq<Text>, header: seq<Text>, c: Column)
    requires |row| == |header| && CompleteHeader(header)
    ensures Value(row, header, c) == [] || Stripped(Value(row, header, c))
  {
    StripStrips(row[IndexOf(header, ColumnName(c))]);
  }

  lemma AcceptedValues(row: seq<Text>, header: seq<Text>, line: nat)
    requires |row| == |header| && CompleteHeader(header)
    requires EmptyIssues(row, header, line, 4) == []
    ensures Stripped(Value(row, header, WarehouseCode)) && Stripped(Value(row, header, WarehouseName))
    ensures Stripped(Value(row, header, Sku)) && Stripped(Value(row, header, ProductName))
  {
    EmptyIssuesFit(row, header, line, 4);
    forall k | 0 <= k < 4
      ensures Stripped(Value(row, header, TEXT_COLUMNS[k]))
    {
      ValueStripped(row, header, TEXT_COLUMNS[k]);
    }
    assert TEXT_COLUMNS[0] == WarehouseCode && TEXT_COLUMNS[1] == WarehouseName;
    assert TEXT_COLUMNS[2] == Sku && TEXT_COLUMNS[3] == ProductName;
  }

  predicate CheckFits(check: RowCheck, line: nat) {
    match check
    case Accepted(row) => Fits(OnValidRow(row), line)
    case Rejected(issues) => Fits(OnIssues(issues), line)
    case Fatal(issue) => Fits(OnIssues([issue]), line)
    case Raises => true
  }

  /** Every issue is about line `line`. */
  predicate OnLine(issues: seq<Issue>, line: nat) {
    forall i :: 0 <= i < |issues| ==> issues[i].line == Some(line)
  }

  lemma QuantityFits(n: Number, line: nat)
    ensures OnLine(QuantityIssues(n, line), line)
    ensures QuantityIssues(n, line) == [] && n.Integer? ==> 0 <= n.value <= BIGINT_MAX
  {
  }

  lemma IssuesFit(a: seq<Issue>, b: seq<Issue>, line: nat)
    requires OnLine(a, line) && OnLine(b, line)
    ensures OnLine(a + b, line) && (a + b != [] ==> Fits(OnIssues(a + b), line))
    ensures a + b == [] ==> a == [] && b == []
  {
  }

  lemma RowChecked(row: seq<Text>, header: seq<Text>, line: nat)
    requires CompleteHeader(header)
    ensures CheckFits(CheckRow(row, header, line), line)
  {
    if |row| == |header| {
      var n := ReadNumber(Value(row, header, Quantity));
      EmptyIssuesFit(row, header, line, 4);
      QuantityFits(n, line);
      IssuesFit(EmptyIssues(row, header, line, 4), QuantityIssues(n, line), line);
      if EmptyIssues(row, header, line, 4) == [] {
        AcceptedValues(row, header, line);
      }
    }
  }

  lemma RecordFits(record: LogicalRecord, header: seq<Text>, line: nat, lim: Limits)
    requires CompleteHeader(header) && lim.maxField >= 0
    ensures CheckFits(CheckRecord(record, header, line, lim), line)
  {
    if !record.truncated {
      match ParseRecord(record.text, lim.maxField)
      case Fields(row) => RowChecked(row, header, line);
      case _ =>
    }
  }

  /** The events are those of the records after line `line`. */
  predicate FitAfter(events: seq<Event>, line: nat) {
    forall k :: 0 <= k < |events| ==> Fits(events[k], line + 1 + k)
  }

  lemma FitBefore(event: Event, events: seq<Event>, line: nat)
    requires Fits(event, line + 1) && FitAfter(events, line + 1)
    ensures FitAfter([event] + events, line)
  {
    forall k | 0 <= k < 1 + |events|
      ensures Fits(([event] + events)[k], line + 1 + k)
    {
      if k > 0 {
        assert Fits(events[k - 1], line + 1 + 1 + (k - 1));
      }
    }
  }

  /** What a verdict on `n` records after line `line` tells: one event per consumed
      record, in order; reading stops early only at a malformed record or an
      exception. */
  ghost predicate Told(v: Verdict, n: nat, line: nat) {
    && v.rowCount == |v.events| + (if v.raised then 1 else 0) <= n
    && FitAfter(v.events, line)
    && (v.reachedEof ==> !v.raised && v.rowCount == n)
    && (!v.reachedEof && !v.raised ==> v.events != [] && v.events[|v.events| - 1].OnIssues?)
  }

  lemma ToldBefore(event: Event, v: Verdict, n: nat, line: nat)
    requires Told(v, n, line + 1) && Fits(event, line + 1)
    ensures Told(Before(event, v), n + 1, line)
  {
    FitBefore(event, v.events, line);
  }

  lemma ToldConsumed(check: RowCheck, rest: Verdict, n: nat, line: nat)
    requires CheckFits(check, line + 1) && Told(rest, n, line + 1)
    ensures Told(Consumed(check, rest), n + 1, line)
  {
    match check
    case Accepted(row) => ToldBefore(OnValidRow(row), rest, n, line);
    case Rejected(issues) => ToldBefore(OnIssues(issues), rest, n, line);
    case Fatal(issue) =>
    case Raises =>
  }

  lemma {:induction false} EventPerRecord(records: seq<LogicalRecord>, header: seq<Text>, line: nat, lim: Limits)
    requires CompleteHeader(header) && lim.maxField >= 0
    ensures Told(CheckData(records, header, line, lim), |records|, line)
    decreases |records|
  {
    if records != [] {
      RecordFits(records[0], header, line + 1, lim);
      EventPerRecord(records[1..], header, line + 1, lim);
      ToldConsumed(CheckRecord(records[0], header, line + 1, lim), CheckData(records[1..], header, line + 1, lim),
                   |records| - 1, line);
    }
  }

  lemma {:induction false} RowsFit(events: seq<Event>, line: nat)
    requires forall k :: 0 <= k < |events| ==> Fits(events[k], line + k)
    ensures var rows := RowsOf(events);
            && |rows| <= |events|
            && (forall i :: 0 <= i < |rows| ==> line <= rows[i].line < line + |events| && GoodRow(rows[i]))
            && (forall i, j :: 0 <= i < j < |rows| ==> rows[i].line < rows[j].line)
            && (|rows| == |events| <==> IssuesOf(events) == [])
            && (IssuesOf(events) == [] ==> forall k :: 0 <= k < |events| ==> events[k].OnValidRow?)
            && (|rows| == |events| ==> forall i :: 0 <= i < |rows| ==> rows[i].line == line + i)
    decreases |events|
  {
    if events != [] {
      assert Fits(events[0], line + 0);
      forall k | 0 <= k < |events| - 1
        ensures Fits(events[1..][k], line + 1 + k)
      {
        assert Fits(events[k + 1], line + (k + 1));
      }
      RowsFit(events[1..], line + 1);
    }
  }

  /** A stream is free of issues iff each of its data records gave a row; then
      it was read to its end and its rows are numbered 2, 3, ..., row_count + 1. */
  ghost predicate Accounted(v: Verdict) {
    var rows := RowsOf(v.events);
    && |rows| <= v.rowCount
    && (forall i :: 0 <= i < |rows| ==> 2 <= rows[i].line <= v.rowCount + 1 && GoodRow(rows[i]))
    && (forall i, j :: 0 <= i < j < |rows| ==> rows[i].line < rows[j].line)
    && ((!v.raised && IssuesOf(v.events) == []) <==> (v.rowCount > 0 && |rows| == v.rowCount))
    && (v.rowCount > 0 && |rows| == v.rowCount ==>
          v.reachedEof && forall i :: 0 <= i < |rows| ==> rows[i].line == i + 2)
  }

  lemma ToldFits(v: Verdict, n: nat)
    requires Told(v, n, 1)
    ensures forall k :: 0 <= k < |v.events| ==> Fits(v.events[k], 2 + k)
  {
    forall k | 0 <= k < |v.events|
      ensures Fits(v.events[k], 2 + k)
    {
      assert Fits(v.events[k], 1 + 1 + k);
    }
  }

  lemma LastIssue(v: Verdict)
    requires v.events != [] && v.events[|v.events| - 1].OnIssues?
    requires forall k :: 0 <= k < |v.events| ==> Fits(v.events[k], 2 + k)
    ensures IssuesOf(v.events) != []
  {
    RowsFit(v.events, 2);
  }

  lemma ToldAccounted(v: Verdict, n: nat)
    requires Told(v, n, 1) && n > 0
    ensures Accounted(v)
  {
    ToldFits(v, n);
    RowsFit(v.events, 2);
    if !v.raised && !v.reachedEof {
      LastIssue(v);
    }
  }

  lemma DataAccounted(records: seq<LogicalRecord>, header: seq<Text>, lim: Limits)
    requires CompleteHeader(header) && lim.maxField >= 0 && records != []
    ensures Accounted(CheckData(records, header, 1, lim))
  {
    EventPerRecord(records, header, 1, lim);
    ToldAccounted(CheckData(records, header, 1, lim), |records|);
  }

  lemma RefusedAccounted(v: Verdict)
    requires v.rowCount == 0 && !v.raised && |v.events| == 1
    requires v.events[0].OnIssues? && v.events[0].issues != []
    ensures Accounted(v)
  {
    assert v.events[1..] == [];
    assert RowsOf(v.events) == [] + RowsOf([]) == [];
    assert IssuesOf(v.events) == v.events[0].issues + IssuesOf([]) == v.events[0].issues;
  }

  lemma RecordsAccounted(records: seq<LogicalRecord>, lim: Limits)
    requires lim.maxField >= 0
    ensures Accounted(CheckRecords(records, lim))
  {
    if records == [] || records[0].truncated {
      RefusedAccounted(CheckRecords(records, lim));
    } else {
      match ParseRecord(records[0].text, lim.maxField)
      case FieldOverLimit => RefusedAccounted(CheckRecords(records, lim));
      case MalformedCsv => RefusedAccounted(CheckRecords(records, lim));
      case Fields(header) =>
        HeaderIssuesExact(header);
        if HasSurrogate(header) || HeaderIssues(header, 5) != [] || |records| == 1 {
          RefusedAccounted(CheckRecords(records, lim));
        } else {
          DataAccounted(records[1..], header, lim);
        }
    }
  }

  lemma RowAccounting(text: Text, lim: Limits)
    ensures Accounted(Validate(text, lim))
  {
    if ValidLimits(lim) {
      RecordsAccounted(CollapseAll(Records(text), lim.maxRecord, lim.rawValue), lim);
    }
  }
}
