/** Which texts the strict reader takes for which fields, and which it refuses: the
    converse of printing. */
module CsvSyntax {
  import opened Common
  import opened CsvSplitter
  import opened CsvRecords
  import opened CsvReader
  import opened CsvRoundTrip

  // ---------------------------------------------------------------------
  // The forms of a record
  // ---------------------------------------------------------------------

  /** Cells that the printer allows, each within the field limit. */
  predicate WithinCells(cells: seq<Cell>, limit: nat) {
    forall i :: 0 <= i < |cells| ==> Printable(cells[i]) && |cells[i].value| <= limit
  }

  /** Printed cells, each with the comma behind it. */
  function Lead(cells: seq<Cell>): Text {
    if cells == [] then []
    else Lead(cells[..|cells| - 1]) + (PrintCell(cells[|cells| - 1]) + [COMMA])
  }

  predicate IsEnd(end: Text) {
    end == [] || end == [CR] || end == [LF]
  }

  predicate PrintedAs(t: Text, row: seq<Text>, limit: nat, cells: seq<Cell>, end: Text) {
    && cells != [] && cells != [Cell([], false)] && WithinCells(cells, limit)
    && Values(cells) == row && IsEnd(end) && t == PrintCells(cells) + end
  }

  /** A blank line without fields, or a printing of just these fields. */
  ghost predicate PrintsFields(t: Text, row: seq<Text>, limit: nat) {
    || (row == [] && (t == [CR] || t == [LF]))
    || exists cells, end :: PrintedAs(t, row, limit, cells, end)
  }

  predicate Stray(c: int) {
    c != QUOTE && c != COMMA && c != CR && c != LF
  }

  predicate StrayAt(t: Text, limit: nat, cells: seq<Cell>, value: Text, c: int, rest: Text) {
    && WithinCells(cells, limit) && |value| <= limit && Stray(c)
    && t == Lead(cells) + ([QUOTE] + Doubled(value) + [QUOTE]) + [c] + rest
  }

  /** After well-formed cells, a closing quote is followed by another character than a
      quote, a comma or a line end. */
  ghost predicate HasStray(t: Text, limit: nat) {
    exists cells, value, c, rest :: StrayAt(t, limit, cells, value, c, rest)
  }

  predicate OpenAt(t: Text, limit: nat, cells: seq<Cell>, value: Text) {
    && WithinCells(cells, limit) && |value| <= limit
    && t == Lead(cells) + ([QUOTE] + Doubled(value))
  }

  /** After well-formed cells, a quote is never closed. */
  ghost predicate HasOpenQuote(t: Text, limit: nat) {
    exists cells, value :: OpenAt(t, limit, cells, value)
  }

  predicate LongAt(t: Text, limit: nat, cells: seq<Cell>, value: Text, rest: Text) {
    && WithinCells(cells, limit) && |value| == limit + 1
    && (|| t == Lead(cells) + ([QUOTE] + Doubled(value)) + rest
        || (BareChars(value) && value[0] != QUOTE && t == Lead(cells) + value + rest))
  }

  /** After well-formed cells, a field goes beyond the limit. */
  ghost predicate HasLongField(t: Text, limit: nat) {
    exists cells, value, rest :: LongAt(t, limit, cells, value, rest)
  }

  // ---------------------------------------------------------------------
  // One record as one line
  // ---------------------------------------------------------------------

  lemma RecordStays(t: Text)
    requires IsRecord(t)
    ensures Stays(FieldStart, t[..|t| - 1])
  {
    InsideStays(FieldStart, [], t[..|t| - 1]);
  }

  function Result(p: Progress): Parsed {
    match Closed(p)
    case Row(fields, _) => Fields(fields)
    case FieldTooLarge => FieldOverLimit
    case _ => MalformedCsv
  }

  lemma ParsedBy(t: Text, limit: nat)
    requires IsRecord(t)
    ensures ParseRecord(t, limit) == Result(Process(FRESH, t, limit))
  {
    RecordStays(t);
    LinesAsOne(FRESH, FieldStart, t, limit);
    assert NextRow([], limit) == EndOfInput;
  }

  // ---------------------------------------------------------------------
  // From the text to the reader
  // ---------------------------------------------------------------------

  function Began(cells: seq<Cell>): Reader {
    Reader(if cells == [] then StartRecord else StartField, Values(cells), [])
  }

  lemma ValuesSnoc(cells: seq<Cell>, c: Cell)
    ensures Values(cells + [c]) == Values(cells) + [c.value]
  {
  }

  lemma WithinInit(cells: seq<Cell>, limit: nat)
    requires WithinCells(cells, limit) && cells != []
    ensures WithinCells(cells[..|cells| - 1], limit)
  {
  }

  lemma {:induction false} ReadLead(cells: seq<Cell>, limit: nat)
    requires WithinCells(cells, limit)
    ensures Process(FRESH, Lead(cells), limit) == Go(Began(cells))
  {
    if cells == [] {
      assert Values([]) == [];
    } else {
      var init, last := cells[..|cells| - 1], cells[|cells| - 1];
      WithinInit(cells, limit);
      ReadLead(init, limit);
      ProcessAppend(FRESH, Lead(init), PrintCell(last) + [COMMA], limit);
      ReadCell(Began(init), last, limit);
      ProcessSnoc(Began(init), PrintCell(last), COMMA, limit);
      ValuesSnoc(init, last);
      assert cells == init + [last];
    }
  }

  lemma ReadAfterLead(cells: seq<Cell>, rest: Text, limit: nat)
    requires WithinCells(cells, limit)
    ensures Process(FRESH, Lead(cells) + rest, limit) == Process(Began(cells), rest, limit)
  {
    ReadLead(cells, limit);
    ProcessAppend(FRESH, Lead(cells), rest, limit);
  }

  lemma {:induction false} PrintCellsSnoc(cells: seq<Cell>, c: Cell)
    ensures PrintCells(cells + [c]) == Lead(cells) + PrintCell(c)
    decreases |cells|
  {
    if cells == [] {
      assert cells + [c] == [c];
    } else {
      assert (cells + [c])[1..] == cells[1..] + [c];
      PrintCellsSnoc(cells[1..], c);
      LeadCons(cells);
      assert PrintCells(cells + [c]) == PrintCell(cells[0]) + [COMMA] + (Lead(cells[1..]) + PrintCell(c));
    }
  }

  lemma LeadSnoc(cells: seq<Cell>, c: Cell)
    ensures Lead(cells + [c]) == Lead(cells) + (PrintCell(c) + [COMMA])
  {
    assert (cells + [c])[..|cells|] == cells;
  }

  lemma LeadConsSnoc(cells: seq<Cell>, last: Cell)
    requires cells != [] && Lead(cells) == PrintCell(cells[0]) + [COMMA] + Lead(cells[1..])
    ensures Lead(cells + [last]) == PrintCell(cells[0]) + [COMMA] + Lead(cells[1..] + [last])
  {
    LeadSnoc(cells, last);
    LeadSnoc(cells[1..], last);
    Regrouped(PrintCell(cells[0]) + [COMMA], Lead(cells[1..]), PrintCell(last) + [COMMA]);
  }

  lemma LeadOne(c: Cell)
    ensures Lead([c]) == PrintCell(c) + [COMMA] && Lead([]) == []
  {
    assert [c][..0] == [];
    assert [] + (PrintCell(c) + [COMMA]) == PrintCell(c) + [COMMA];
  }

  lemma {:induction false} LeadCons(cells: seq<Cell>)
    requires cells != []
    ensures Lead(cells) == PrintCell(cells[0]) + [COMMA] + Lead(cells[1..])
    decreases |cells|
  {
    var init, last := cells[..|cells| - 1], cells[|cells| - 1];
    if init == [] {
      assert cells == [last] && cells[1..] == [];
      LeadOne(last);
    } else {
      LeadCons(init);
      LeadConsSnoc(init, last);
      assert cells == init + [last] && cells[1..] == init[1..] + [last] && cells[0] == init[0];
    }
  }

  lemma Regrouped(a: Text, b: Text, c: Text)
    ensures a + b + c == a + (b + c)
  {
  }

  lemma {:induction false} ReadDoubledTooLong(r: Reader, value: Text, rest: Text, limit: nat)
    requires r.state == InQuoted && |r.field| <= limit < |r.field| + |value|
    ensures Process(r, Doubled(value) + rest, limit) == TooLarge
    decreases |value|
  {
    var head := if value[0] == QUOTE then [QUOTE, QUOTE] else [value[0]];
    var tail := Doubled(value[1..]) + rest;
    assert Doubled(value) + rest == head + tail;
    assert head[1..] == if value[0] == QUOTE then [QUOTE] else [];
    assert [value[0]][1..] == [];
    ProcessSnoc(r, [value[0]], QUOTE, limit);
    ProcessAppend(r, head, tail, limit);
    if |r.field| < limit {
      var r1 := r.(field := r.field + [value[0]]);
      assert Process(r, head, limit) == Go(r1);
      ReadDoubledTooLong(r1, value[1..], rest, limit);
    } else {
      assert Process(r, head, limit) == TooLarge;
    }
  }

  lemma {:induction false} ReadBareTooLong(r: Reader, value: Text, rest: Text, limit: nat)
    requires r.state == InField && BareChars(value) && |r.field| <= limit < |r.field| + |value|
    ensures Process(r, value + rest, limit) == TooLarge
    decreases |value|
  {
    assert (value + rest)[0] == value[0] && (value + rest)[1..] == value[1..] + rest;
    if |r.field| < limit {
      ReadBareTooLong(r.(field := r.field + [value[0]]), value[1..], rest, limit);
    }
  }

  lemma LongIsTooLarge(t: Text, limit: nat, cells: seq<Cell>, value: Text, rest: Text)
    requires LongAt(t, limit, cells, value, rest)
    ensures Process(FRESH, t, limit) == TooLarge
  {
    var r := Began(cells);
    if t == Lead(cells) + ([QUOTE] + Doubled(value)) + rest {
      assert t == Lead(cells) + ([QUOTE] + (Doubled(value) + rest));
      ReadAfterLead(cells, [QUOTE] + (Doubled(value) + rest), limit);
      assert ([QUOTE] + (Doubled(value) + rest))[1..] == Doubled(value) + rest;
      ReadDoubledTooLong(r.(state := InQuoted), value, rest, limit);
    } else {
      assert t == Lead(cells) + (value + rest);
      ReadAfterLead(cells, value + rest, limit);
      BareTooLong(r, value, rest, limit);
    }
  }

  lemma BareTooLong(r: Reader, value: Text, rest: Text, limit: nat)
    requires (r.state == StartRecord || r.state == StartField) && r.field == []
    requires BareChars(value) && |value| == limit + 1 && value[0] != QUOTE
    ensures Process(r, value + rest, limit) == TooLarge
  {
    assert (value + rest)[0] == value[0] && (value + rest)[1..] == value[1..] + rest;
    if limit > 0 {
      ReadBareTooLong(Reader(InField, r.fields, [] + [value[0]]), value[1..], rest, limit);
    }
  }

  lemma ReadQuoted(cells: seq<Cell>, value: Text, limit: nat)
    requires WithinCells(cells, limit) && |value| <= limit
    ensures Process(FRESH, Lead(cells) + ([QUOTE] + Doubled(value)), limit)
         == Go(Reader(InQuoted, Values(cells), value))
  {
    var r := Began(cells);
    ReadAfterLead(cells, [QUOTE] + Doubled(value), limit);
    assert ([QUOTE] + Doubled(value))[1..] == Doubled(value);
    ReadDoubled(r.(state := InQuoted), value, limit);
    assert [] + value == value;
  }

  lemma StrayIsBad(t: Text, limit: nat, cells: seq<Cell>, value: Text, c: int, rest: Text)
    requires StrayAt(t, limit, cells, value, c, rest)
    ensures Process(FRESH, t, limit) == Bad
  {
    var u := Lead(cells) + ([QUOTE] + Doubled(value));
    assert t == u + [QUOTE] + [c] + rest;
    ReadQuoted(cells, value, limit);
    ProcessSnoc(FRESH, u, QUOTE, limit);
    ProcessSnoc(FRESH, u + [QUOTE], c, limit);
    ProcessAppend(FRESH, u + [QUOTE] + [c], rest, limit);
  }

  lemma PrintedIsRead(t: Text, row: seq<Text>, limit: nat, cells: seq<Cell>, end: Text)
    requires PrintedAs(t, row, limit, cells, end)
    ensures Result(Process(FRESH, t, limit)) == Fields(row)
  {
    if end == [] {
      assert t == PrintCells(cells);
      OpenEndIsRead(cells, limit);
    } else {
      assert end == [end[0]];
      ReadCells(FRESH, cells, end[0], limit);
      assert [] + Values(cells) == Values(cells);
    }
  }

  /** A last record without a line end. */
  lemma OpenEndIsRead(cells: seq<Cell>, limit: nat)
    requires cells != [] && cells != [Cell([], false)] && WithinCells(cells, limit)
    ensures Result(Process(FRESH, PrintCells(cells), limit)) == Fields(Values(cells))
  {
    var init, last := cells[..|cells| - 1], cells[|cells| - 1];
    assert cells == init + [last];
    PrintCellsSnoc(init, last);
    ReadAfterLead(init, PrintCell(last), limit);
    ReadCell(Began(init), last, limit);
    ValuesSnoc(init, last);
  }

  // ---------------------------------------------------------------------
  // From the reader to the text
  // ---------------------------------------------------------------------

  /** What the reader has read so far, told by its state: well-formed cells, and the
      part of a cell behind them. */
  predicate ReadSoFar(u: Text, r: Reader, cells: seq<Cell>, limit: nat) {
    && WithinCells(cells, limit) && r.fields == Values(cells) && |r.field| <= limit
    && match r.state
       case StartRecord => u == [] && cells == [] && r.field == []
       case StartField => cells != [] && u == Lead(cells) && r.field == []
       case InField =>
         r.field != [] && BareChars(r.field) && r.field[0] != QUOTE && u == Lead(cells) + r.field
       case InQuoted => u == Lead(cells) + ([QUOTE] + Doubled(r.field))
       case QuoteInQuotedField => u == Lead(cells) + ([QUOTE] + Doubled(r.field) + [QUOTE])
       case EatCrnl =>
         && r.field == []
         && (|| (cells == [] && (u == [CR] || u == [LF]))
             || (cells != [] && cells != [Cell([], false)]
                 && (u == PrintCells(cells) + [CR] || u == PrintCells(cells) + [LF])))
  }

  lemma {:induction false} DoubledSnoc(value: Text, c: int)
    ensures Doubled(value + [c]) == Doubled(value) + if c == QUOTE then [QUOTE, QUOTE] else [c]
    decreases |value|
  {
    if value == [] {
      assert value + [c] == [c] && [c][1..] == [];
    } else {
      assert (value + [c])[1..] == value[1..] + [c];
      DoubledSnoc(value[1..], c);
    }
  }

  /** The cell that the reader has open. */
  function OpenCell(r: Reader): Cell {
    Cell(r.field, r.state == QuoteInQuotedField)
  }

  predicate CanSave(r: Reader) {
    r.state == StartField || r.state == InField || r.state == QuoteInQuotedField
  }

  lemma OpenCellPrints(u: Text, r: Reader, cells: seq<Cell>, limit: nat)
    requires ReadSoFar(u, r, cells, limit) && CanSave(r)
    ensures u == Lead(cells) + PrintCell(OpenCell(r)) && Printable(OpenCell(r))
    ensures cells + [OpenCell(r)] != [Cell([], false)]
    ensures WithinCells(cells + [OpenCell(r)], limit)
  {
    if r.state == StartField {
      assert Lead(cells) + [] == Lead(cells);
      assert |cells + [OpenCell(r)]| > 1;
    }
    assert (cells + [OpenCell(r)])[|cells|] == OpenCell(r);
  }

  /** A comma saves the open cell. */
  lemma CommaSaves(u: Text, r: Reader, cells: seq<Cell>, limit: nat)
    requires ReadSoFar(u, r, cells, limit) && CanSave(r)
    ensures ReadSoFar(u + [COMMA], SaveField(r, StartField), cells + [OpenCell(r)], limit)
  {
    OpenCellPrints(u, r, cells, limit);
    LeadSnoc(cells, OpenCell(r));
    ValuesSnoc(cells, OpenCell(r));
    assert u + [COMMA] == Lead(cells) + (PrintCell(OpenCell(r)) + [COMMA]);
  }

  /** So does a line end. */
  lemma EndSaves(u: Text, r: Reader, cells: seq<Cell>, limit: nat, c: int)
    requires ReadSoFar(u, r, cells, limit) && CanSave(r) && Newline(c)
    ensures ReadSoFar(u + [c], SaveField(r, EatCrnl), cells + [OpenCell(r)], limit)
  {
    OpenCellPrints(u, r, cells, limit);
    PrintCellsSnoc(cells, OpenCell(r));
    ValuesSnoc(cells, OpenCell(r));
  }

  lemma EmptyCell(limit: nat)
    ensures Values([Cell([], false)]) == [[]] && WithinCells([Cell([], false)], limit)
  {
  }

  lemma CommaFirst(limit: nat)
    ensures ReadSoFar([COMMA], Reader(StartField, [[]], []), [Cell([], false)], limit)
  {
    LeadOne(Cell([], false));
    assert PrintCell(Cell([], false)) + [COMMA] == [COMMA];
    EmptyCell(limit);
  }

  /** What the next character does, as long as the record goes on. */
  ghost predicate NextRead(u: Text, c: int, next: Progress, limit: nat) {
    match next
    case Go(r) => exists cells :: ReadSoFar(u + [c], r, cells, limit)
    case Bad => HasStray(u + [c], limit)
    case TooLarge => HasLongField(u + [c], limit)
  }

  lemma NextAtStart(u: Text, r: Reader, cells: seq<Cell>, limit: nat, c: int)
    requires ReadSoFar(u, r, cells, limit) && (r.state == StartRecord || r.state == StartField)
    ensures NextRead(u, c, ProcessChar(r, c, limit), limit)
  {
    if Newline(c) {
      if r.state == StartRecord {
        assert ReadSoFar(u + [c], r.(state := EatCrnl), [], limit);
      } else {
        EndSaves(u, r, cells, limit, c);
      }
    } else if c == QUOTE {
      assert Doubled([]) == [] && [QUOTE] + [] == [QUOTE];
      assert Lead([]) == [] && [] + [QUOTE] == [QUOTE];
      assert ReadSoFar(u + [c], r.(state := InQuoted), cells, limit);
    } else if c == COMMA {
      if r.state == StartRecord {
        CommaFirst(limit);
        assert u + [c] == [COMMA] && SaveField(r, StartField) == Reader(StartField, [[]], []);
        assert ReadSoFar(u + [c], SaveField(r, StartField), [Cell([], false)], limit);
      } else {
        CommaSaves(u, r, cells, limit);
      }
    } else {
      BareNext(u, r, cells, limit, c);
    }
  }

  lemma BareNext(u: Text, r: Reader, cells: seq<Cell>, limit: nat, c: int)
    requires ReadSoFar(u, r, cells, limit) && (r.state == StartRecord || r.state == StartField || r.state == InField)
    requires c != COMMA && !Newline(c) && (r.state == InField || c != QUOTE)
    ensures NextRead(u, c, AddChar(r, InField, c, limit), limit)
  {
    var value := r.field + [c];
    assert u + [c] == Lead(cells) + value;
    if |r.field| >= limit {
      assert Lead(cells) + value + [] == u + [c];
      assert LongAt(u + [c], limit, cells, value, []);
    } else {
      assert ReadSoFar(u + [c], Reader(InField, r.fields, value), cells, limit);
    }
  }

  lemma QuotedNext(u: Text, r: Reader, cells: seq<Cell>, limit: nat, c: int)
    requires ReadSoFar(u, r, cells, limit)
    requires (r.state == InQuoted && c != QUOTE) || (r.state == QuoteInQuotedField && c == QUOTE)
    ensures NextRead(u, c, AddChar(r, InQuoted, c, limit), limit)
  {
    var value := r.field + [c];
    DoubledSnoc(r.field, c);
    assert u + [c] == Lead(cells) + ([QUOTE] + Doubled(value));
    if |r.field| >= limit {
      assert Lead(cells) + ([QUOTE] + Doubled(value)) + [] == u + [c];
      assert LongAt(u + [c], limit, cells, value, []);
    } else {
      assert ReadSoFar(u + [c], Reader(InQuoted, r.fields, value), cells, limit);
    }
  }

  lemma NextInField(u: Text, r: Reader, cells: seq<Cell>, limit: nat, c: int)
    requires ReadSoFar(u, r, cells, limit) && r.state == InField
    ensures NextRead(u, c, ProcessChar(r, c, limit), limit)
  {
    if Newline(c) {
      EndSaves(u, r, cells, limit, c);
    } else if c == COMMA {
      CommaSaves(u, r, cells, limit);
    } else {
      BareNext(u, r, cells, limit, c);
    }
  }

  lemma NextInQuoted(u: Text, r: Reader, cells: seq<Cell>, limit: nat, c: int)
    requires ReadSoFar(u, r, cells, limit) && r.state == InQuoted
    ensures NextRead(u, c, ProcessChar(r, c, limit), limit)
  {
    if c == QUOTE {
      assert u + [c] == Lead(cells) + ([QUOTE] + Doubled(r.field) + [QUOTE]);
      assert ReadSoFar(u + [c], r.(state := QuoteInQuotedField), cells, limit);
    } else {
      QuotedNext(u, r, cells, limit, c);
    }
  }

  lemma NextAfterQuote(u: Text, r: Reader, cells: seq<Cell>, limit: nat, c: int)
    requires ReadSoFar(u, r, cells, limit) && r.state == QuoteInQuotedField
    ensures NextRead(u, c, ProcessChar(r, c, limit), limit)
  {
    if c == QUOTE {
      QuotedNext(u, r, cells, limit, c);
    } else if c == COMMA {
      CommaSaves(u, r, cells, limit);
    } else if Newline(c) {
      EndSaves(u, r, cells, limit, c);
    } else {
      assert u + [c] == u + [c] + [];
      assert StrayAt(u + [c], limit, cells, r.field, c, []);
    }
  }

  lemma NextOf(u: Text, r: Reader, cells: seq<Cell>, limit: nat, c: int)
    requires ReadSoFar(u, r, cells, limit) && r.state != EatCrnl
    ensures NextRead(u, c, ProcessChar(r, c, limit), limit)
  {
    match r.state
    case InField => NextInField(u, r, cells, limit, c);
    case InQuoted => NextInQuoted(u, r, cells, limit, c);
    case QuoteInQuotedField => NextAfterQuote(u, r, cells, limit, c);
    case _ => NextAtStart(u, r, cells, limit, c);
  }

  /** What the reader has made of a text, in terms of the text. */
  ghost predicate ReadAs(t: Text, p: Progress, limit: nat) {
    match p
    case Go(r) => exists cells :: ReadSoFar(t, r, cells, limit)
    case Bad => HasStray(t, limit)
    case TooLarge => HasLongField(t, limit)
  }

  lemma StrayStays(t: Text, limit: nat, c: int)
    requires HasStray(t, limit)
    ensures HasStray(t + [c], limit)
  {
    var cells, value, d, rest :| StrayAt(t, limit, cells, value, d, rest);
    assert t + [c] == Lead(cells) + ([QUOTE] + Doubled(value) + [QUOTE]) + [d] + (rest + [c]);
    assert StrayAt(t + [c], limit, cells, value, d, rest + [c]);
  }

  lemma LongStays(t: Text, limit: nat, c: int)
    requires HasLongField(t, limit)
    ensures HasLongField(t + [c], limit)
  {
    var cells, value, rest :| LongAt(t, limit, cells, value, rest);
    var quoted := Lead(cells) + ([QUOTE] + Doubled(value));
    assert quoted + rest + [c] == quoted + (rest + [c]);
    assert Lead(cells) + value + rest + [c] == Lead(cells) + value + (rest + [c]);
    assert LongAt(t + [c], limit, cells, value, rest + [c]);
  }

  lemma ReadNext(t: Text, c: int, limit: nat)
    requires Stays(FieldStart, t) && ReadAs(t, Process(FRESH, t, limit), limit)
    ensures ReadAs(t + [c], Process(FRESH, t + [c], limit), limit)
  {
    ProcessSnoc(FRESH, t, c, limit);
    match Process(FRESH, t, limit)
    case Go(r) =>
      ReaderFollows(FRESH, FieldStart, t, limit);
      var cells :| ReadSoFar(t, r, cells, limit);
      NextOf(t, r, cells, limit, c);
    case Bad => StrayStays(t, limit, c);
    case TooLarge => LongStays(t, limit, c);
  }

  lemma {:induction false} ReadAll(t: Text, limit: nat)
    requires t == [] || Stays(FieldStart, t[..|t| - 1])
    ensures ReadAs(t, Process(FRESH, t, limit), limit)
    decreases |t|
  {
    if t == [] {
      assert ReadSoFar([], FRESH, [], limit);
    } else {
      var init := t[..|t| - 1];
      assert t == init + [t[|t| - 1]];
      if init != [] {
        assert init == init[..|init| - 1] + [init[|init| - 1]];
        StaysSplit(FieldStart, init[..|init| - 1], [init[|init| - 1]]);
      }
      ReadAll(init, limit);
      ReadNext(init, t[|t| - 1], limit);
    }
  }

  // ---------------------------------------------------------------------
  // The outcomes of a record
  // ---------------------------------------------------------------------

  lemma SavedIsPrinted(t: Text, r: Reader, cells: seq<Cell>, limit: nat)
    requires ReadSoFar(t, r, cells, limit) && CanSave(r)
    ensures PrintsFields(t, r.fields + [r.field], limit)
  {
    OpenCellPrints(t, r, cells, limit);
    PrintCellsSnoc(cells, OpenCell(r));
    ValuesSnoc(cells, OpenCell(r));
    assert PrintCells(cells + [OpenCell(r)]) + [] == t;
    assert PrintedAs(t, r.fields + [r.field], limit, cells + [OpenCell(r)], []);
  }

  lemma EndedIsPrinted(t: Text, r: Reader, cells: seq<Cell>, limit: nat)
    requires ReadSoFar(t, r, cells, limit) && r.state == EatCrnl
    ensures PrintsFields(t, r.fields, limit)
  {
    if cells == [] {
      assert Values(cells) == [];
    } else {
      assert PrintedAs(t, r.fields, limit, cells, [t[|t| - 1]]);
    }
  }

  /** Each outcome of the reader is that of a form of the text. */
  ghost predicate OutcomeOf(t: Text, p: Parsed, limit: nat) {
    match p
    case Fields(row) => PrintsFields(t, row, limit)
    case MalformedCsv => HasStray(t, limit) || HasOpenQuote(t, limit)
    case FieldOverLimit => HasLongField(t, limit)
  }

  lemma FormOf(t: Text, limit: nat)
    requires IsRecord(t)
    ensures OutcomeOf(t, Result(Process(FRESH, t, limit)), limit)
  {
    RecordStays(t);
    ReadAll(t, limit);
    var p := Process(FRESH, t, limit);
    if p.Go? {
      var r := p.reader;
      var cells :| ReadSoFar(t, r, cells, limit);
      if r.state == InQuoted {
        assert OpenAt(t, limit, cells, r.field);
      } else if r.state == EatCrnl {
        EndedIsPrinted(t, r, cells, limit);
      } else {
        SavedIsPrinted(t, r, cells, limit);
      }
    }
  }

  lemma PrintsIsFields(t: Text, row: seq<Text>, limit: nat)
    requires PrintsFields(t, row, limit)
    ensures Result(Process(FRESH, t, limit)) == Fields(row)
  {
    if row == [] && (t == [CR] || t == [LF]) {
      assert t[1..] == [];
    } else {
      var cells, end :| PrintedAs(t, row, limit, cells, end);
      PrintedIsRead(t, row, limit, cells, end);
    }
  }

  lemma StrayIsMalformed(t: Text, limit: nat)
    requires HasStray(t, limit)
    ensures Result(Process(FRESH, t, limit)) == MalformedCsv
  {
    var cells, value, c, rest :| StrayAt(t, limit, cells, value, c, rest);
    StrayIsBad(t, limit, cells, value, c, rest);
  }

  lemma OpenIsMalformed(t: Text, limit: nat)
    requires HasOpenQuote(t, limit)
    ensures Result(Process(FRESH, t, limit)) == MalformedCsv
  {
    var cells, value :| OpenAt(t, limit, cells, value);
    ReadQuoted(cells, value, limit);
  }

  lemma LongIsOverLimit(t: Text, limit: nat)
    requires HasLongField(t, limit)
    ensures Result(Process(FRESH, t, limit)) == FieldOverLimit
  {
    var cells, value, rest :| LongAt(t, limit, cells, value, rest);
    LongIsTooLarge(t, limit, cells, value, rest);
  }

  /** The converse of printing: a record is read as fields exactly when it prints them
      (or is a blank line), each within the limit. */
  lemma FieldsExactly(t: Text, limit: nat, row: seq<Text>)
    requires IsRecord(t)
    ensures ParseRecord(t, limit) == Fields(row) <==> PrintsFields(t, row, limit)
  {
    ParsedBy(t, limit);
    FormOf(t, limit);
    if PrintsFields(t, row, limit) {
      PrintsIsFields(t, row, limit);
    }
  }

  /** It is malformed exactly when, after well-formed cells, a closing quote has a stray
      character behind it or a quote is never closed. */
  lemma MalformedExactly(t: Text, limit: nat)
    requires IsRecord(t)
    ensures ParseRecord(t, limit) == MalformedCsv <==> HasStray(t, limit) || HasOpenQuote(t, limit)
  {
    ParsedBy(t, limit);
    FormOf(t, limit);
    if HasStray(t, limit) {
      StrayIsMalformed(t, limit);
    }
    if HasOpenQuote(t, limit) {
      OpenIsMalformed(t, limit);
    }
  }

  /** And a field is too large exactly when, after well-formed cells, one goes beyond the
      limit. */
  lemma TooLargeExactly(t: Text, limit: nat)
    requires IsRecord(t)
    ensures ParseRecord(t, limit) == FieldOverLimit <==> HasLongField(t, limit)
  {
    ParsedBy(t, limit);
    FormOf(t, limit);
    if HasLongField(t, limit) {
      LongIsOverLimit(t, limit);
    }
  }

  // ---------------------------------------------------------------------
  // Where a malformed record ends
  // ---------------------------------------------------------------------

  lemma {:induction false} LeadStays(cells: seq<Cell>)
    requires forall i :: 0 <= i < |cells| ==> Printable(cells[i])
    ensures Stays(FieldStart, Lead(cells)) && ModeAfter(FieldStart, Lead(cells)) == FieldStart
  {
    if cells != [] {
      var init, last := cells[..|cells| - 1], cells[|cells| - 1];
      LeadStays(init);
      CellStays(last);
      assert [COMMA][1..] == [];
      StaysJoin(FieldStart, PrintCell(last), [COMMA]);
      StaysJoin(FieldStart, Lead(init), PrintCell(last) + [COMMA]);
    }
  }

  lemma QuotedThenStray(value: Text, c: int)
    requires Stray(c)
    ensures Stays(FieldStart, [QUOTE] + Doubled(value) + [QUOTE] + [c])
    ensures ModeAfter(FieldStart, [QUOTE] + Doubled(value) + [QUOTE] + [c]) == Unquoted
  {
    var quoted := [QUOTE] + Doubled(value) + [QUOTE];
    CellStays(Cell(value, true));
    QuotedStays(value);
    assert quoted[1..] == Doubled(value) + [QUOTE];
    assert [c][1..] == [];
    StaysJoin(FieldStart, quoted, [c]);
  }

  /** A stray character behind a closing quote ends the quoting: the record goes on
      unquoted, quotes open nothing in the rest of that field, and the next line end
      closes the record. */
  lemma StrayRecordEnds(cells: seq<Cell>, value: Text, c: int, rest: Text, end: int)
    requires (forall i :: 0 <= i < |cells| ==> Printable(cells[i])) && Stray(c) && BareChars(rest) && Newline(end)
    ensures var t := Lead(cells) + ([QUOTE] + Doubled(value) + [QUOTE] + [c] + rest);
            Run(START, t + [end]) == Scan(FieldStart, end == CR, [], [t + [end]])
  {
    var field := [QUOTE] + Doubled(value) + [QUOTE] + [c];
    var t := Lead(cells) + (field + rest);
    LeadStays(cells);
    QuotedThenStray(value, c);
    BareStays(rest);
    StaysJoin(FieldStart, field, rest);
    StaysJoin(FieldStart, Lead(cells), field + rest);
    StaysRun(START, t);
    assert [] + t == t;
    RunSnoc(START, t, end);
  }
}
