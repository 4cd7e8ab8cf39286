/** Rows printed as a report are validated to the same rows. */
module PrintedReports {
  import opened Common
  import opened CsvSplitter
  import opened CsvReader
  import opened CsvRoundTrip
  import opened CsvValidation
  import opened CsvAccounting
  import opened Quantities

  // ---------------------------------------------------------------------
  // Rows as fields
  // ---------------------------------------------------------------------

  /** The columns of `fields` hold what `row` holds, with any white space around it and
      with anything in the additional columns. */
  predicate HoldsRow(fields: seq<Text>, header: seq<Text>, row: ValidatedRow)
    requires CompleteHeader(header)
  {
    && |fields| == |header|
    && Value(fields, header, WarehouseCode) == row.warehouseCode
    && Value(fields, header, WarehouseName) == row.warehouseName
    && Value(fields, header, Sku) == row.sku && Value(fields, header, ProductName) == row.productName
    && ReadNumber(Value(fields, header, Quantity)) == Integer(row.quantity)
  }

  lemma HeldText(fields: seq<Text>, header: seq<Text>, line: nat, c: Column, t: Text)
    requires CompleteHeader(header) && |fields| == |header| && Value(fields, header, c) == t && Stripped(t)
    ensures EmptyIssue(fields, header, line, c) == []
  {
  }

  lemma NextNotEmpty(fields: seq<Text>, header: seq<Text>, line: nat, n: nat, c: Column)
    requires CompleteHeader(header) && |fields| == |header| && n < 4 && TEXT_COLUMNS[n] == c
    requires EmptyIssues(fields, header, line, n) == [] && EmptyIssue(fields, header, line, c) == []
    ensures EmptyIssues(fields, header, line, n + 1) == []
  {
  }

  lemma FourNotEmpty(fields: seq<Text>, header: seq<Text>, line: nat)
    requires CompleteHeader(header) && |fields| == |header|
    requires EmptyIssue(fields, header, line, WarehouseCode) == []
    requires EmptyIssue(fields, header, line, WarehouseName) == []
    requires EmptyIssue(fields, header, line, Sku) == [] && EmptyIssue(fields, header, line, ProductName) == []
    ensures EmptyIssues(fields, header, line, 4) == []
  {
    NextNotEmpty(fields, header, line, 0, WarehouseCode);
    NextNotEmpty(fields, header, line, 1, WarehouseName);
    NextNotEmpty(fields, header, line, 2, Sku);
    NextNotEmpty(fields, header, line, 3, ProductName);
  }

  lemma NothingEmpty(fields: seq<Text>, header: seq<Text>, line: nat, row: ValidatedRow)
    requires CompleteHeader(header) && HoldsRow(fields, header, row) && GoodRow(row)
    ensures EmptyIssues(fields, header, line, 4) == []
  {
    HeldText(fields, header, line, WarehouseCode, row.warehouseCode);
    HeldText(fields, header, line, WarehouseName, row.warehouseName);
    HeldText(fields, header, line, Sku, row.sku);
    HeldText(fields, header, line, ProductName, row.productName);
    FourNotEmpty(fields, header, line);
  }

  lemma HeldIsAccepted(fields: seq<Text>, header: seq<Text>, row: ValidatedRow)
    requires CompleteHeader(header) && HoldsRow(fields, header, row) && GoodRow(row)
    ensures CheckRow(fields, header, row.line) == Accepted(row)
  {
    NothingEmpty(fields, header, row.line, row);
    NoQuantityIssue(row.quantity, row.line);
    NothingAdded(EmptyIssues(fields, header, row.line, 4));
  }

  lemma AcceptedIsHeld(fields: seq<Text>, header: seq<Text>, row: ValidatedRow)
    requires CompleteHeader(header) && CheckRow(fields, header, row.line) == Accepted(row)
    ensures HoldsRow(fields, header, row) && GoodRow(row)
  {
    RowChecked(fields, header, row.line);
    var n := ReadNumber(Value(fields, header, Quantity));
    assert EmptyIssues(fields, header, row.line, 4) + QuantityIssues(n, row.line) == [];
  }

  /** The validator takes fields for a row just when they hold that row and the row
      has stripped, non-empty texts and a quantity in range. */
  lemma AcceptedExactly(fields: seq<Text>, header: seq<Text>, row: ValidatedRow)
    requires CompleteHeader(header)
    ensures CheckRow(fields, header, row.line) == Accepted(row) <==> HoldsRow(fields, header, row) && GoodRow(row)
  {
    if HoldsRow(fields, header, row) && GoodRow(row) {
      HeldIsAccepted(fields, header, row);
    }
    if CheckRow(fields, header, row.line) == Accepted(row) {
      AcceptedIsHeld(fields, header, row);
    }
  }

  lemma NoQuantityIssue(n: nat, line: nat)
    requires n <= BIGINT_MAX
    ensures QuantityIssues(Integer(n), line) == []
  {
  }

  lemma NothingAdded(issues: seq<Issue>)
    requires issues == []
    ensures issues + [] == []
  {
  }

  // ---------------------------------------------------------------------
  // The shortest fields of a row
  // ---------------------------------------------------------------------

  function FieldOf(row: ValidatedRow, name: Text): Text {
    if name == ColumnName(WarehouseCode) then row.warehouseCode
    else if name == ColumnName(WarehouseName) then row.warehouseName
    else if name == ColumnName(Sku) then row.sku
    else if name == ColumnName(ProductName) then row.productName
    else if name == ColumnName(Quantity) then Digits(row.quantity)
    else []
  }

  /** The fields of `row` in the order of the header; other columns stay empty. */
  function FieldsOf(row: ValidatedRow, header: seq<Text>): seq<Text> {
    seq(|header|, j requires 0 <= j < |header| => FieldOf(row, header[j]))
  }

  lemma NamesDiffer()
    ensures ColumnName(WarehouseCode) != ColumnName(WarehouseName)
    ensures forall c, d :: ColumnName(c) == ColumnName(d) ==> c == d
  {
    assert ColumnName(WarehouseCode)[10] == 'c' as int && ColumnName(WarehouseName)[10] == 'n' as int;
    assert |ColumnName(WarehouseCode)| == 14 && |ColumnName(WarehouseName)| == 14;
    assert |ColumnName(Sku)| == 3 && |ColumnName(ProductName)| == 12 && |ColumnName(Quantity)| == 8;
  }

  function ValueOf(row: ValidatedRow, c: Column): Text {
    match c
    case WarehouseCode => row.warehouseCode
    case WarehouseName => row.warehouseName
    case Sku => row.sku
    case ProductName => row.productName
    case Quantity => Digits(row.quantity)
  }

  lemma FieldOfColumn(row: ValidatedRow, c: Column)
    ensures FieldOf(row, ColumnName(c)) == ValueOf(row, c)
  {
    NamesDiffer();
  }

  lemma StripKeeps(t: Text)
    requires Stripped(t)
    ensures Strip(t) == t
  {
  }

  lemma ValueRead(row: ValidatedRow, header: seq<Text>, c: Column)
    requires GoodRow(row) && CompleteHeader(header)
    ensures Value(FieldsOf(row, header), header, c) == ValueOf(row, c) && Stripped(ValueOf(row, c))
  {
    var j := IndexOf(header, ColumnName(c));
    assert FieldsOf(row, header)[j] == FieldOf(row, header[j]);
    FieldOfColumn(row, c);
    QuantityRead(row.quantity);
    StripKeeps(ValueOf(row, c));
  }

  /** Every good row can be printed under every complete header. */
  lemma FieldsHoldRow(row: ValidatedRow, header: seq<Text>)
    requires GoodRow(row) && CompleteHeader(header)
    ensures HoldsRow(FieldsOf(row, header), header, row)
  {
    QuantityRead(row.quantity);
    ValueRead(row, header, WarehouseCode);
    ValueRead(row, header, WarehouseName);
    ValueRead(row, header, Sku);
    ValueRead(row, header, ProductName);
    ValueRead(row, header, Quantity);
  }

  // ---------------------------------------------------------------------
  // Whole reports
  // ---------------------------------------------------------------------

  function EventsOf(rows: seq<ValidatedRow>): seq<Event> {
    seq(|rows|, i requires 0 <= i < |rows| => OnValidRow(rows[i]))
  }

  predicate AcceptedAs(record: LogicalRecord, header: seq<Text>, lim: Limits, row: ValidatedRow)
    requires CompleteHeader(header) && lim.maxField >= 0
  {
    CheckRecord(record, header, row.line, lim) == Accepted(row)
  }

  predicate NumberedFrom(rows: seq<ValidatedRow>, line: nat) {
    forall i :: 0 <= i < |rows| ==> rows[i].line == line + i
  }

  lemma FirstAccepted(records: seq<LogicalRecord>, header: seq<Text>, line: nat, lim: Limits, row: ValidatedRow)
    requires CompleteHeader(header) && lim.maxField >= 0 && records != []
    requires row.line == line + 1 && AcceptedAs(records[0], header, lim, row)
    ensures CheckData(records, header, line, lim)
         == Before(OnValidRow(row), CheckData(records[1..], header, line + 1, lim))
  {
  }

  predicate AcceptedAll(records: seq<LogicalRecord>, header: seq<Text>, lim: Limits, rows: seq<ValidatedRow>)
    requires CompleteHeader(header) && lim.maxField >= 0
  {
    |rows| == |records| && forall i :: 0 <= i < |rows| ==> AcceptedAs(records[i], header, lim, rows[i])
  }

  lemma RestAccepted(records: seq<LogicalRecord>, header: seq<Text>, line: nat, lim: Limits, rows: seq<ValidatedRow>)
    requires CompleteHeader(header) && lim.maxField >= 0 && records != []
    requires AcceptedAll(records, header, lim, rows) && NumberedFrom(rows, line + 1)
    ensures AcceptedAll(records[1..], header, lim, rows[1..]) && NumberedFrom(rows[1..], line + 2)
  {
    forall i | 0 <= i < |rows[1..]|
      ensures AcceptedAs(records[1..][i], header, lim, rows[1..][i])
    {
      assert AcceptedAs(records[i + 1], header, lim, rows[i + 1]);
    }
  }

  lemma OneMoreAccepted(records: seq<LogicalRecord>, header: seq<Text>, line: nat, lim: Limits, rows: seq<ValidatedRow>)
    requires CompleteHeader(header) && lim.maxField >= 0 && records != []
    requires AcceptedAll(records, header, lim, rows) && NumberedFrom(rows, line + 1)
    requires CheckData(records[1..], header, line + 1, lim) == Verdict(EventsOf(rows[1..]), |rows| - 1, true, false)
    ensures CheckData(records, header, line, lim) == Verdict(EventsOf(rows), |rows|, true, false)
  {
    assert AcceptedAs(records[0], header, lim, rows[0]);
    FirstAccepted(records, header, line, lim, rows[0]);
    assert EventsOf(rows) == [OnValidRow(rows[0])] + EventsOf(rows[1..]);
  }

  lemma {:induction false} AllAccepted(records: seq<LogicalRecord>, header: seq<Text>, line: nat, lim: Limits,
                                       rows: seq<ValidatedRow>)
    requires CompleteHeader(header) && lim.maxField >= 0
    requires AcceptedAll(records, header, lim, rows) && NumberedFrom(rows, line + 1)
    ensures CheckData(records, header, line, lim) == Verdict(EventsOf(rows), |rows|, true, false)
    decreases |records|
  {
    if records != [] {
      RestAccepted(records, header, line, lim, rows);
      AllAccepted(records[1..], header, line + 1, lim, rows[1..]);
      OneMoreAccepted(records, header, line, lim, rows);
    }
  }

  /** `table` prints a header and `rows`, each cell quoted or bare and each line ended
      by CRLF, LF or CR; no cell holds an undecodable byte. */
  predicate PrintsRows(table: seq<PrintedRow>, header: seq<Text>, rows: seq<ValidatedRow>)
    requires CompleteHeader(header)
  {
    && |table| == 1 + |rows|
    && (forall i :: 0 <= i < |table| ==> table[i].cells != [] && PrintableRow(table[i]))
    && Values(table[0].cells) == header
    && forall i :: 0 <= i < |rows| ==>
         HoldsRow(Values(table[i + 1].cells), header, rows[i]) && !HasSurrogate(Values(table[i + 1].cells))
  }

  predicate WithinLimits(table: seq<PrintedRow>, lim: Limits)
    requires forall i :: 0 <= i < |table| ==> table[i].cells != []
  {
    && ValidLimits(lim)
    && (forall i :: 0 <= i < |table| ==> |RecordText(table[i])| <= lim.maxRecord)
    && forall i, j :: 0 <= i < |table| && 0 <= j < |table[i].cells| ==> |table[i].cells[j].value| <= lim.maxField
  }

  /** Rows with stripped, non-empty texts and quantities in range, numbered from 2. */
  predicate ReportRows(rows: seq<ValidatedRow>, header: seq<Text>) {
    && CompleteHeader(header) && !HasSurrogate(header)
    && NumberedFrom(rows, 2)
    && forall i :: 0 <= i < |rows| ==> GoodRow(rows[i])
  }

  lemma RecordAccepted(record: LogicalRecord, fields: seq<Text>, row: ValidatedRow, header: seq<Text>, lim: Limits)
    requires GoodRow(row) && CompleteHeader(header) && lim.maxField >= 0
    requires HoldsRow(fields, header, row) && !HasSurrogate(fields)
    requires !record.truncated && ParseRecord(record.text, lim.maxField) == CsvReader.Fields(fields)
    ensures CheckRecord(record, header, row.line, lim) == Accepted(row)
  {
    AcceptedExactly(fields, header, row);
  }

  lemma TextAccepted(records: seq<LogicalRecord>, header: seq<Text>, rows: seq<ValidatedRow>, lim: Limits)
    requires rows != [] && ReportRows(rows, header) && |records| == 1 + |rows| && ValidLimits(lim)
    requires !records[0].truncated && ParseRecord(records[0].text, lim.maxField) == CsvReader.Fields(header)
    requires forall i :: 0 <= i < |rows| ==> AcceptedAs(records[1..][i], header, lim, rows[i])
    ensures CheckRecords(records, lim) == Verdict(EventsOf(rows), |rows|, true, false)
  {
    AllAccepted(records[1..], header, 1, lim, rows);
    HeaderIssuesExact(header);
  }

  /** A printed report is accepted as a whole, with exactly its rows. */
  lemma PrintedAccepted(table: seq<PrintedRow>, header: seq<Text>, rows: seq<ValidatedRow>, lim: Limits)
    requires rows != [] && ReportRows(rows, header) && PrintsRows(table, header, rows) && WithinLimits(table, lim)
    ensures Validate(Print(table), lim) == Verdict(EventsOf(rows), |rows|, true, false)
  {
    RoundTrip(table, lim.maxRecord, lim.rawValue, lim.maxField);
    var records := CollapseAll(Records(Print(table)), lim.maxRecord, lim.rawValue);
    forall i | 0 <= i < |rows|
      ensures AcceptedAs(records[1..][i], header, lim, rows[i])
    {
      assert records[1..][i] == records[i + 1];
      assert ParseRecord(records[i + 1].text, lim.maxField) == CsvReader.Fields(Values(table[i + 1].cells));
      RecordAccepted(records[i + 1], Values(table[i + 1].cells), rows[i], header, lim);
    }
    TextAccepted(records, header, rows, lim);
  }
}
