/** Validation of a CSV stream: every record becomes one row or at least one issue. */
module CsvValidation {
  import opened Common
  import opened CsvSplitter
  import opened CsvReader

  datatype Column = WarehouseCode | WarehouseName | Sku | ProductName | Quantity

  datatype IssueCode =
    | MissingHeader | NoDataRows
    | CsvRecordTooLarge | CsvFieldTooLarge | MalformedRecord | InvalidUtf8
    | MissingRequiredColumn | DuplicateRequiredColumn
    | InvalidColumnCount | Required | InvalidQuantity | QuantityNegative | QuantityTooLarge
    | DuplicateWarehouseSku | ProcessingError | ApplyError

  datatype Issue = Issue(line: Option<nat>, column: Option<Column>, code: IssueCode)

  datatype ValidatedRow = ValidatedRow(
    line: nat,
    warehouseCode: Text,
    warehouseName: Text,
    sku: Text,
    productName: Text,
    quantity: nat)

  /** The callbacks in the order they are made. */
  datatype Event = OnValidRow(row: ValidatedRow) | OnIssues(issues: seq<Issue>)

  /** `raised`: an exception left the validator, so there is no summary. */
  datatype Verdict = Verdict(events: seq<Event>, rowCount: nat, reachedEof: bool, raised: bool)

  datatype Limits = Limits(maxField: int, maxRecord: int, rawValue: int, rawTotal: int)

  const BIGINT_MAX: nat := 9_223_372_036_854_775_807
  const MAX_INT_DIGITS: nat := 4300

  const REQUIRED_COLUMNS: seq<Column> := [WarehouseCode, WarehouseName, Sku, ProductName, Quantity]
  const TEXT_COLUMNS: seq<Column> := [WarehouseCode, WarehouseName, Sku, ProductName]

  predicate ValidLimits(lim: Limits) {
    0 < lim.maxField <= lim.maxRecord && 0 < lim.rawValue && 0 < lim.rawTotal
  }

  function Encode(s: string): Text {
    seq(|s|, i requires 0 <= i < |s| => s[i] as int)
  }

  function ColumnName(c: Column): Text {
    match c
    case WarehouseCode => Encode("warehouse_code")
    case WarehouseName => Encode("warehouse_name")
    case Sku => Encode("sku")
    case ProductName => Encode("product_name")
    case Quantity => Encode("quantity")
  }

  // ---------------------------------------------------------------------
  // Field values
  // ---------------------------------------------------------------------

  /** The characters removed by str.strip. */
  predicate IsSpace(c: int) {
    || 9 <= c <= 13 || 28 <= c <= 32 || c == 0x85 || c == 0xA0 || c == 0x1680
    || 0x2000 <= c <= 0x200A || c == 0x2028 || c == 0x2029 || c == 0x202F || c == 0x205F || c == 0x3000
  }

  function StripLeft(t: Text): Text {
    if t != [] && IsSpace(t[0]) then StripLeft(t[1..]) else t
  }

  function StripRight(t: Text): (r: Text)
    ensures r <= t && (r == [] || !IsSpace(r[|r| - 1]))
  {
    if t != [] && IsSpace(t[|t| - 1]) then StripRight(t[..|t| - 1]) else t
  }

  function Strip(t: Text): Text {
    StripRight(StripLeft(t))
  }

  predicate Stripped(t: Text) {
    t != [] && !IsSpace(t[0]) && !IsSpace(t[|t| - 1])
  }

  lemma {:induction false} StripLeftStarts(t: Text)
    ensures StripLeft(t) == [] || !IsSpace(StripLeft(t)[0])
  {
    if t != [] && IsSpace(t[0]) {
      StripLeftStarts(t[1..]);
    }
  }

  lemma StripStrips(t: Text)
    ensures Strip(t) == [] || Stripped(Strip(t))
  {
    StripLeftStarts(t);
  }

  predicate AllSpace(t: Text) {
    forall k :: 0 <= k < |t| ==> IsSpace(t[k])
  }

  /** `t` is `u` with nothing but white space before and behind it. */
  predicate Around(t: Text, before: Text, u: Text, behind: Text) {
    t == before + u + behind && AllSpace(before) && AllSpace(behind)
  }

  lemma {:induction false} StripLeftOf(before: Text, rest: Text)
    requires AllSpace(before) && (rest == [] || !IsSpace(rest[0]))
    ensures StripLeft(before + rest) == rest
    decreases |before|
  {
    if before == [] {
      assert before + rest == rest;
    } else {
      assert IsSpace(before[0]) && (before + rest)[1..] == before[1..] + rest;
      StripLeftOf(before[1..], rest);
    }
  }

  lemma {:induction false} StripRightOf(u: Text, behind: Text)
    requires AllSpace(behind) && (u == [] || !IsSpace(u[|u| - 1]))
    ensures StripRight(u + behind) == u
    decreases |behind|
  {
    var n := |behind|;
    if n == 0 {
      assert u + behind == u;
    } else {
      assert IsSpace(behind[n - 1]) && (u + behind)[..|u| + n - 1] == u + behind[..n - 1];
      StripRightOf(u, behind[..n - 1]);
    }
  }

  lemma {:induction false} LeftRest(t: Text) returns (before: Text)
    ensures t == before + StripLeft(t) && AllSpace(before)
  {
    before := [];
    if t != [] && IsSpace(t[0]) {
      before := LeftRest(t[1..]);
      before := [t[0]] + before;
    }
  }

  lemma {:induction false} RightRest(t: Text) returns (behind: Text)
    ensures t == StripRight(t) + behind && AllSpace(behind)
  {
    behind := [];
    if t != [] && IsSpace(t[|t| - 1]) {
      behind := RightRest(t[..|t| - 1]);
      assert t == t[..|t| - 1] + [t[|t| - 1]];
      behind := behind + [t[|t| - 1]];
    }
  }

  lemma StripOf(t: Text, before: Text, u: Text, behind: Text)
    requires Around(t, before, u, behind) && (u == [] || Stripped(u))
    ensures Strip(t) == u
  {
    if u == [] {
      assert t == (before + behind) + [] && AllSpace(before + behind);
      StripLeftOf(before + behind, []);
    } else {
      assert t == before + (u + behind) && (u + behind)[0] == u[0];
      StripLeftOf(before, u + behind);
      StripRightOf(u, behind);
    }
  }

  /** Stripping takes away nothing but white space before and behind, and all of it. */
  lemma StripExact(t: Text, u: Text)
    ensures Strip(t) == u <==> (u == [] || Stripped(u)) && exists before, behind :: Around(t, before, u, behind)
  {
    var before := LeftRest(t);
    var behind := RightRest(StripLeft(t));
    assert before + (Strip(t) + behind) == before + Strip(t) + behind;
    assert Around(t, before, Strip(t), behind);
    StripStrips(t);
    if (u == [] || Stripped(u)) && exists a, b :: Around(t, a, u, b) {
      var a, b :| Around(t, a, u, b);
      StripOf(t, a, u, b);
    }
  }

  /** The white space of Unicode, as str.isspace has it. */
  lemma WhiteSpace(c: int)
    ensures IsSpace(c) <==>
              c in {9, 10, 11, 12, 13, 28, 29, 30, 31, 32, 0x85, 0xA0, 0x1680, 0x2000, 0x2001, 0x2002, 0x2003, 0x2004,
                    0x2005, 0x2006, 0x2007, 0x2008, 0x2009, 0x200A, 0x2028, 0x2029, 0x202F, 0x205F, 0x3000}
  {
  }

  predicate HasSurrogate(values: seq<Text>) {
    exists i, k :: 0 <= i < |values| && 0 <= k < |values[i]| && 0xDC80 <= values[i][k] <= 0xDCFF
  }

  predicate IsDigit(c: int) {
    48 <= c <= 57
  }

  predicate AllDigits(t: Text) {
    forall k :: 0 <= k < |t| ==> IsDigit(t[k])
  }

  function Decimal(digits: Text): (n: nat)
    requires AllDigits(digits)
  {
    if digits == [] then 0
    else
      assert IsDigit(digits[|digits| - 1]);
      10 * Decimal(digits[..|digits| - 1]) + (digits[|digits| - 1] - 48)
  }

  datatype Number = NotInteger | TooManyDigits | Integer(value: int)

  /** The integer pattern, then int() with CPython's default digit limit. */
  function ReadNumber(t: Text): Number {
    var negative := t != [] && t[0] == 45;
    var digits := if t != [] && (t[0] == 43 || t[0] == 45) then t[1..] else t;
    if digits == [] || !AllDigits(digits) then NotInteger
    else if |digits| > MAX_INT_DIGITS then TooManyDigits
    else Integer((if negative then -1 else 1) * Decimal(digits))
  }

  // ---------------------------------------------------------------------
  // Header and rows
  // ---------------------------------------------------------------------

  function Count(header: seq<Text>, name: Text): nat {
    if header == [] then 0 else (if header[0] == name then 1 else 0) + Count(header[1..], name)
  }

  function HeaderIssue(header: seq<Text>, c: Column): seq<Issue> {
    var n := Count(header, ColumnName(c));
    if n == 0 then [Issue(None, Some(c), MissingRequiredColumn)]
    else if n > 1 then [Issue(None, Some(c), DuplicateRequiredColumn)]
    else []
  }

  /** The issues for the first `n` required columns. */
  function HeaderIssues(header: seq<Text>, n: nat): seq<Issue>
    requires n <= 5
  {
    if n == 0 then [] else HeaderIssues(header, n - 1) + HeaderIssue(header, REQUIRED_COLUMNS[n - 1])
  }

  method ValidateHeader(header: seq<Text>) returns (issues: seq<Issue>)
    ensures issues == HeaderIssues(header, 5)
  {
    issues := [];
    for i := 0 to |REQUIRED_COLUMNS|
      invariant issues == HeaderIssues(header, i)
    {
      var column := REQUIRED_COLUMNS[i];
      var occurrences := Count(header, ColumnName(column));
      if occurrences == 0 {
        issues := issues + [Issue(None, Some(column), MissingRequiredColumn)];
      } else if occurrences > 1 {
        issues := issues + [Issue(None, Some(column), DuplicateRequiredColumn)];
      }
    }
  }

  /** header.index for a name that occurs. */
  function IndexOf(header: seq<Text>, name: Text): (i: nat)
    requires Count(header, name) > 0
    ensures i < |header| && header[i] == name && name !in header[..i]
  {
    if header[0] == name then 0 else IndexOf(header[1..], name) + 1
  }

  predicate CompleteHeader(header: seq<Text>) {
    forall c: Column :: Count(header, ColumnName(c)) == 1
  }

  lemma HeaderIssuesExact(header: seq<Text>)
    ensures HeaderIssues(header, 5) == [] <==> CompleteHeader(header)
  {
    assert HeaderIssues(header, 5) == HeaderIssues(header, 3) + HeaderIssue(header, ProductName)
                                      + HeaderIssue(header, Quantity);
    assert HeaderIssues(header, 3) == HeaderIssues(header, 1) + HeaderIssue(header, WarehouseName)
                                      + HeaderIssue(header, Sku);
    assert HeaderIssues(header, 1) == HeaderIssue(header, WarehouseCode);
    if HeaderIssues(header, 5) == [] {
      forall c: Column
        ensures Count(header, ColumnName(c)) == 1
      {
        assert HeaderIssue(header, c) == [] by {
          match c
          case _ =>
        }
      }
    }
  }

  lemma {:induction false} Occurrences(header: seq<Text>, name: Text)
    ensures Count(header, name) == 0 <==> name !in header
    ensures Count(header, name) > 1 <==> exists i, j :: 0 <= i < j < |header| && header[i] == name == header[j]
  {
    if header != [] {
      var rest := header[1..];
      Occurrences(rest, name);
      if header[0] == name && name in rest {
        var j :| 0 <= j < |rest| && rest[j] == name;
        assert header[0] == name == header[j + 1];
      }
      if Count(rest, name) > 1 {
        var i, j :| 0 <= i < j < |rest| && rest[i] == name == rest[j];
        assert header[i + 1] == name == header[j + 1];
      }
      if i, j :| 0 <= i < j < |header| && header[i] == name == header[j] {
        assert rest[j - 1] == name;
        if i > 0 {
          assert rest[i - 1] == name;
        }
      }
    }
  }

  lemma {:induction false} HeaderIssueIn(header: seq<Text>, n: nat, c: Column, code: IssueCode)
    requires n <= 5
    ensures Issue(None, Some(c), code) in HeaderIssues(header, n) <==>
              c in REQUIRED_COLUMNS[..n] && Issue(None, Some(c), code) in HeaderIssue(header, c)
  {
    if n > 0 {
      HeaderIssueIn(header, n - 1, c, code);
      assert REQUIRED_COLUMNS[..n] == REQUIRED_COLUMNS[..n - 1] + [REQUIRED_COLUMNS[n - 1]];
    }
  }

  lemma AllRequired(c: Column)
    ensures c in REQUIRED_COLUMNS[..5]
  {
    assert REQUIRED_COLUMNS[..5] == REQUIRED_COLUMNS;
    assert REQUIRED_COLUMNS[0] == WarehouseCode && REQUIRED_COLUMNS[1] == WarehouseName;
    assert REQUIRED_COLUMNS[2] == Sku && REQUIRED_COLUMNS[3] == ProductName && REQUIRED_COLUMNS[4] == Quantity;
  }

  /** A column is reported missing just when it does not occur, and repeated just
      when it occurs at two places. */
  lemma HeaderIssuesMean(header: seq<Text>, c: Column)
    ensures Issue(None, Some(c), MissingRequiredColumn) in HeaderIssues(header, 5) <==> ColumnName(c) !in header
    ensures Issue(None, Some(c), DuplicateRequiredColumn) in HeaderIssues(header, 5) <==>
              exists i, j :: 0 <= i < j < |header| && header[i] == ColumnName(c) == header[j]
  {
    HeaderIssueIn(header, 5, c, MissingRequiredColumn);
    HeaderIssueIn(header, 5, c, DuplicateRequiredColumn);
    AllRequired(c);
    Occurrences(header, ColumnName(c));
  }

  function Value(row: seq<Text>, header: seq<Text>, c: Column): Text
    requires |row| == |header| && CompleteHeader(header)
  {
    Strip(row[IndexOf(header, ColumnName(c))])
  }

  function EmptyIssue(row: seq<Text>, header: seq<Text>, line: nat, c: Column): seq<Issue>
    requires |row| == |header| && CompleteHeader(header)
  {
    if Value(row, header, c) == [] then [Issue(Some(line), Some(c), Required)] else []
  }

  /** The issues for the first `n` of the columns that must not be empty. */
  function EmptyIssues(row: seq<Text>, header: seq<Text>, line: nat, n: nat): seq<Issue>
    requires |row| == |header| && CompleteHeader(header) && n <= 4
  {
    if n == 0 then []
    else EmptyIssues(row, header, line, n - 1) + EmptyIssue(row, header, line, TEXT_COLUMNS[n - 1])
  }

  function QuantityIssues(n: Number, line: nat): seq<Issue> {
    match n
    case NotInteger => [Issue(Some(line), Some(Quantity), InvalidQuantity)]
    case TooManyDigits => []
    case Integer(q) =>
      if q < 0 then [Issue(Some(line), Some(Quantity), QuantityNegative)]
      else if q > BIGINT_MAX then [Issue(Some(line), Some(Quantity), QuantityTooLarge)]
      else []
  }

  datatype RowCheck = Accepted(row: ValidatedRow) | Rejected(issues: seq<Issue>) | Fatal(issue: Issue) | Raises

  function CheckRow(row: seq<Text>, header: seq<Text>, line: nat): RowCheck
    requires CompleteHeader(header)
  {
    if |row| != |header| then Rejected([Issue(Some(line), None, InvalidColumnCount)])
    else
      var n := ReadNumber(Value(row, header, Quantity));
      var issues := EmptyIssues(row, header, line, 4) + QuantityIssues(n, line);
      if n.TooManyDigits? then Raises
      else if issues != [] then Rejected(issues)
      else Accepted(ValidatedRow(line, Value(row, header, WarehouseCode), Value(row, header, WarehouseName),
                                 Value(row, header, Sku), Value(row, header, ProductName), n.value))
  }

  method AddQuantityIssues(issues: seq<Issue>, number: Number, line: nat) returns (added: seq<Issue>)
    ensures added == issues + QuantityIssues(number, line)
  {
    added := issues;
    match number {
      case NotInteger =>
        added := added + [Issue(Some(line), Some(Quantity), InvalidQuantity)];
      case TooManyDigits =>
      case Integer(q) =>
        if q < 0 {
          added := added + [Issue(Some(line), Some(Quantity), QuantityNegative)];
        } else if q > BIGINT_MAX {
          added := added + [Issue(Some(line), Some(Quantity), QuantityTooLarge)];
        }
    }
    assert issues + [] == issues;
  }

  method ValidateRow(row: seq<Text>, header: seq<Text>, line: nat) returns (check: RowCheck)
    requires CompleteHeader(header)
    ensures check == CheckRow(row, header, line)
  {
    if |row| != |header| {
      return Rejected([Issue(Some(line), None, InvalidColumnCount)]);
    }
    var issues: seq<Issue> := [];
    for i := 0 to |TEXT_COLUMNS|
      invariant issues == EmptyIssues(row, header, line, i)
    {
      if Value(row, header, TEXT_COLUMNS[i]) == [] {
        issues := issues + [Issue(Some(line), Some(TEXT_COLUMNS[i]), Required)];
      }
    }
    var number := ReadNumber(Value(row, header, Quantity));
    if number.TooManyDigits? {
      return Raises;
    }
    issues := AddQuantityIssues(issues, number, line);
    if issues != [] || !number.Integer? {
      return Rejected(issues);
    }
    check := Accepted(ValidatedRow(line, Value(row, header, WarehouseCode), Value(row, header, WarehouseName),
                                   Value(row, header, Sku), Value(row, header, ProductName), number.value));
  }

  // ---------------------------------------------------------------------
  // The stream
  // ---------------------------------------------------------------------

  function CheckRecord(record: LogicalRecord, header: seq<Text>, line: nat, lim: Limits): RowCheck
    requires CompleteHeader(header) && lim.maxField >= 0
  {
    if record.truncated then Rejected([Issue(Some(line), None, CsvRecordTooLarge)])
    else match ParseRecord(record.text, lim.maxField)
      case FieldOverLimit => Rejected([Issue(Some(line), None, CsvFieldTooLarge)])
      case MalformedCsv => Fatal(Issue(Some(line), None, MalformedRecord))
      case Fields(row) =>
        if HasSurrogate(row) then Rejected([Issue(Some(line), None, InvalidUtf8)])
        else CheckRow(row, header, line)
  }

  function Before(event: Event, v: Verdict): Verdict {
    v.(events := [event] + v.events, rowCount := v.rowCount + 1)
  }

  /** A record with outcome `check`, then, if reading goes on, the records of `rest`. */
  function Consumed(check: RowCheck, rest: Verdict): Verdict {
    match check
    case Accepted(row) => Before(OnValidRow(row), rest)
    case Rejected(issues) => Before(OnIssues(issues), rest)
    case Fatal(issue) => Verdict([OnIssues([issue])], 1, false, false)
    case Raises => Verdict([], 1, false, true)
  }

  /** The data records after line `line`. */
  function CheckData(records: seq<LogicalRecord>, header: seq<Text>, line: nat, lim: Limits): Verdict
    requires CompleteHeader(header) && lim.maxField >= 0
    decreases |records|
  {
    if records == [] then Verdict([], 0, true, false)
    else Consumed(CheckRecord(records[0], header, line + 1, lim), CheckData(records[1..], header, line + 1, lim))
  }

  function Refused(issues: seq<Issue>): Verdict {
    Verdict([OnIssues(issues)], 0, false, false)
  }

  function CheckRecords(records: seq<LogicalRecord>, lim: Limits): Verdict
    requires lim.maxField >= 0
  {
    if records == [] then Refused([Issue(None, None, MissingHeader)]).(reachedEof := true)
    else if records[0].truncated then Refused([Issue(None, None, CsvRecordTooLarge)])
    else match ParseRecord(records[0].text, lim.maxField)
      case FieldOverLimit => Refused([Issue(None, None, CsvFieldTooLarge)])
      case MalformedCsv => Refused([Issue(Some(1), None, MalformedRecord)])
      case Fields(header) =>
        HeaderIssuesExact(header);
        var issues := HeaderIssues(header, 5);
        if HasSurrogate(header) then Refused([Issue(None, None, InvalidUtf8)])
        else if issues != [] then Refused(issues)
        else if |records| == 1 then Refused([Issue(None, None, NoDataRows)]).(reachedEof := true)
        else CheckData(records[1..], header, 1, lim)
  }

  /** The verdict on a text; it does not depend on how the text was read. */
  function Validate(text: Text, lim: Limits): Verdict {
    if !ValidLimits(lim) then Verdict([], 0, false, true)
    else CheckRecords(CollapseAll(Records(text), lim.maxRecord, lim.rawValue), lim)
  }

  method ValidateCsvStream(pieces: seq<Text>, lim: Limits) returns (v: Verdict)
    ensures v == Validate(Received(pieces), lim)
  {
    if !ValidLimits(lim) {
      return Verdict([], 0, false, true);
    }
    var records := Split(pieces, lim.maxRecord, lim.rawValue);
    if records == [] {
      return Verdict([OnIssues([Issue(None, None, MissingHeader)])], 0, true, false);
    }
    if records[0].truncated {
      return Verdict([OnIssues([Issue(None, None, CsvRecordTooLarge)])], 0, false, false);
    }
    var parsed := ParseRecord(records[0].text, lim.maxField);
    if parsed.FieldOverLimit? {
      return Verdict([OnIssues([Issue(None, None, CsvFieldTooLarge)])], 0, false, false);
    }
    if parsed.MalformedCsv? {
      return Verdict([OnIssues([Issue(Some(1), None, MalformedRecord)])], 0, false, false);
    }
    var header := parsed.row;
    if HasSurrogate(header) {
      return Verdict([OnIssues([Issue(None, None, InvalidUtf8)])], 0, false, false);
    }
    var headerIssues := ValidateHeader(header);
    HeaderIssuesExact(header);
    if headerIssues != [] {
      return Verdict([OnIssues(headerIssues)], 0, false, false);
    }
    v := ValidateData(records, header, lim);
  }

  /** `v` put after `n` records that caused `events`. */
  function After(events: seq<Event>, n: nat, v: Verdict): Verdict {
    v.(events := events + v.events, rowCount := n + v.rowCount)
  }

  lemma AfterConsumed(events: seq<Event>, n: nat, check: RowCheck, rest: Verdict)
    ensures After(events, n, Consumed(check, rest)) ==
            match check
            case Accepted(row) => After(events + [OnValidRow(row)], n + 1, rest)
            case Rejected(issues) => After(events + [OnIssues(issues)], n + 1, rest)
            case Fatal(issue) => Verdict(events + [OnIssues([issue])], n + 1, false, false)
            case Raises => Verdict(events, n + 1, false, true)
  {
    match check
    case Accepted(row) =>
      assert events + ([OnValidRow(row)] + rest.events) == events + [OnValidRow(row)] + rest.events;
    case Rejected(issues) =>
      assert events + ([OnIssues(issues)] + rest.events) == events + [OnIssues(issues)] + rest.events;
    case Fatal(issue) =>
    case Raises => assert events + [] == events;
  }

  method ProcessRecord(record: LogicalRecord, header: seq<Text>, line: nat, lim: Limits)
    returns (check: RowCheck)
    requires CompleteHeader(header) && lim.maxField >= 0
    ensures check == CheckRecord(record, header, line, lim)
  {
    if record.truncated {
      return Rejected([Issue(Some(line), None, CsvRecordTooLarge)]);
    }
    var parsed := ParseRecord(record.text, lim.maxField);
    match parsed {
      case FieldOverLimit =>
        check := Rejected([Issue(Some(line), None, CsvFieldTooLarge)]);
      case MalformedCsv =>
        check := Fatal(Issue(Some(line), None, MalformedRecord));
      case Fields(row) =>
        if HasSurrogate(row) {
          check := Rejected([Issue(Some(line), None, InvalidUtf8)]);
        } else {
          check := ValidateRow(row, header, line);
        }
    }
  }

  method ValidateData(records: seq<LogicalRecord>, header: seq<Text>, lim: Limits) returns (v: Verdict)
    requires records != [] && CompleteHeader(header) && ValidLimits(lim)
    ensures v == if |records| == 1 then Refused([Issue(None, None, NoDataRows)]).(reachedEof := true)
                 else CheckData(records[1..], header, 1, lim)
  {
    var events: seq<Event> := [];
    var line: nat, rowCount: nat := 1, 0;
    var i: nat := 1;
    ghost var whole := CheckData(records[1..], header, 1, lim);
    while i < |records|
      invariant 1 <= i <= |records| && line == i && rowCount == i - 1
      invariant whole == After(events, rowCount, CheckData(records[i..], header, line, lim))
    {
      var record := records[i];
      assert records[i..][0] == record && records[i..][1..] == records[i + 1..];
      line := line + 1;
      rowCount := rowCount + 1;
      i := i + 1;
      var check := ProcessRecord(record, header, line, lim);
      AfterConsumed(events, i - 2, check, CheckData(records[i..], header, line, lim));
      match check {
        case Accepted(valid) =>
          events := events + [OnValidRow(valid)];
        case Rejected(issues) =>
          events := events + [OnIssues(issues)];
        case Fatal(issue) =>
          return Verdict(events + [OnIssues([issue])], rowCount, false, false);
        case Raises =>
          return Verdict(events, rowCount, false, true);
      }
    }
    if rowCount == 0 {
      return Verdict([OnIssues([Issue(None, None, NoDataRows)])], 0, true, false);
    }
    v := Verdict(events, rowCount, true, false);
  }
}
