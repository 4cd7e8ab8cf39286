/** Printing rows, then splitting and parsing, gives the same fields back. */
module CsvRoundTrip {
  import opened Common
  import opened CsvSplitter
  import opened CsvReader

  datatype Cell = Cell(value: Text, quoted: bool)

  datatype LineBreak = CrLf | LfOnly | CrOnly

  datatype PrintedRow = PrintedRow(cells: seq<Cell>, end: LineBreak)

  function Doubled(value: Text): Text {
    if value == [] then []
    else (if value[0] == QUOTE then [QUOTE, QUOTE] else [value[0]]) + Doubled(value[1..])
  }

  function PrintCell(c: Cell): Text {
    if c.quoted then [QUOTE] + Doubled(c.value) + [QUOTE] else c.value
  }

  function PrintCells(cells: seq<Cell>): Text
    requires cells != []
  {
    if |cells| == 1 then PrintCell(cells[0])
    else PrintCell(cells[0]) + [COMMA] + PrintCells(cells[1..])
  }

  function LastChar(end: LineBreak): int {
    if end == LfOnly then LF else CR
  }

  /** The row with its terminator, but without the LF of a CRLF. */
  function RecordText(row: PrintedRow): Text
    requires row.cells != []
  {
    PrintCells(row.cells) + [LastChar(row.end)]
  }

  function LfAfter(row: PrintedRow): Text {
    if row.end == CrLf then [LF] else []
  }

  function Print(rows: seq<PrintedRow>): Text
    requires forall i :: 0 <= i < |rows| ==> rows[i].cells != []
  {
    if rows == [] then []
    else RecordText(rows[0]) + LfAfter(rows[0]) + Print(rows[1..])
  }

  function Values(cells: seq<Cell>): seq<Text> {
    seq(|cells|, i requires 0 <= i < |cells| => cells[i].value)
  }

  predicate BareChars(value: Text) {
    forall k :: 0 <= k < |value| ==> value[k] != COMMA && !Newline(value[k])
  }

  /** A field needs quotes only for a comma, a line break or a leading quote. */
  predicate Printable(c: Cell) {
    c.quoted || (BareChars(c.value) && (c.value == [] || c.value[0] != QUOTE))
  }

  /** A blank line would be read back as a row without fields. */
  predicate PrintableRow(row: PrintedRow) {
    && row.cells != []
    && (forall i :: 0 <= i < |row.cells| ==> Printable(row.cells[i]))
    && row.cells != [Cell([], false)]
  }

  // ---------------------------------------------------------------------
  // The splitter on printed rows
  // ---------------------------------------------------------------------

  lemma {:induction false} StaysJoin(m: Mode, a: Text, b: Text)
    requires Stays(m, a) && Stays(ModeAfter(m, a), b)
    ensures Stays(m, a + b) && ModeAfter(m, a + b) == ModeAfter(ModeAfter(m, a), b)
    decreases |a|
  {
    if a == [] {
      assert a + b == b;
    } else {
      assert (a + b)[1..] == a[1..] + b;
      StaysJoin(NextMode(m, a[0]), a[1..], b);
    }
  }

  lemma {:induction false} StaysRun(s: Scan, t: Text)
    requires !s.dropLf && Stays(s.mode, t)
    ensures Run(s, t) == Scan(ModeAfter(s.mode, t), false, s.record + t, s.done)
    decreases |t|
  {
    if t == [] {
      assert s.record + t == s.record;
    } else {
      assert s.record + [t[0]] + t[1..] == s.record + t;
      StaysRun(Consume(s, t[0]), t[1..]);
    }
  }

  lemma {:induction false} DoubledStays(value: Text)
    ensures Stays(Quoted, Doubled(value)) && ModeAfter(Quoted, Doubled(value)) == Quoted
    decreases |value|
  {
    if value != [] {
      var head := if value[0] == QUOTE then [QUOTE, QUOTE] else [value[0]];
      assert head[1..] == if value[0] == QUOTE then [QUOTE] else [];
      assert [value[0]][1..] == [];
      ModeAfterSnoc(Quoted, [value[0]], QUOTE);
      assert Stays(Quoted, head) && ModeAfter(Quoted, head) == Quoted;
      DoubledStays(value[1..]);
      StaysJoin(Quoted, head, Doubled(value[1..]));
    }
  }

  lemma {:induction false} BareStays(value: Text)
    requires BareChars(value)
    ensures Stays(Unquoted, value) && ModeAfter(Unquoted, value) == Unquoted
    decreases |value|
  {
    if value != [] {
      BareStays(value[1..]);
    }
  }

  lemma QuotedStays(value: Text)
    ensures Stays(Quoted, Doubled(value) + [QUOTE])
    ensures ModeAfter(Quoted, Doubled(value) + [QUOTE]) == NextMode(Quoted, QUOTE)
  {
    assert [QUOTE][1..] == [];
    DoubledStays(value);
    StaysJoin(Quoted, Doubled(value), [QUOTE]);
  }

  lemma CellStays(c: Cell)
    requires Printable(c)
    ensures Stays(FieldStart, PrintCell(c)) && ModeAfter(FieldStart, PrintCell(c)) != Quoted
  {
    if c.quoted {
      QuotedStays(c.value);
      assert PrintCell(c)[1..] == Doubled(c.value) + [QUOTE];
    } else if c.value != [] {
      BareStays(c.value[1..]);
    }
  }

  lemma {:induction false} CellsStay(cells: seq<Cell>)
    requires cells != [] && forall i :: 0 <= i < |cells| ==> Printable(cells[i])
    ensures Stays(FieldStart, PrintCells(cells)) && ModeAfter(FieldStart, PrintCells(cells)) != Quoted
    decreases |cells|
  {
    CellStays(cells[0]);
    if |cells| > 1 {
      var first := PrintCell(cells[0]);
      assert [COMMA][1..] == [];
      StaysJoin(FieldStart, first, [COMMA]);
      CellsStay(cells[1..]);
      StaysJoin(FieldStart, first + [COMMA], PrintCells(cells[1..]));
    }
  }

  lemma DropLfIrrelevant(s: Scan, t: Text)
    requires t != [] && t[0] != LF
    ensures Run(s, t) == Run(s.(dropLf := false), t)
  {
  }

  /** A printed row never starts with LF, so a preceding CR may stand alone. */
  lemma FirstChar(row: PrintedRow)
    requires PrintableRow(row)
    ensures RecordText(row) != [] && PrintCells(row.cells) != [] && PrintCells(row.cells)[0] != LF
  {
    if |row.cells| == 1 {
      assert row.cells == [row.cells[0]];
    }
  }

  lemma SplitRow(s: Scan, row: PrintedRow)
    requires PrintableRow(row) && s.mode == FieldStart && s.record == []
    ensures Run(s, RecordText(row)) == Scan(FieldStart, row.end != LfOnly, [], s.done + [RecordText(row)])
  {
    var body := PrintCells(row.cells);
    FirstChar(row);
    DropLfIrrelevant(s, body);
    CellsStay(row.cells);
    StaysRun(s.(dropLf := false), body);
    assert [] + body == body;
    RunSnoc(s, body, LastChar(row.end));
  }

  function RecordTexts(rows: seq<PrintedRow>): seq<Text>
    requires forall i :: 0 <= i < |rows| ==> rows[i].cells != []
  {
    seq(|rows|, i requires 0 <= i < |rows| => RecordText(rows[i]))
  }

  lemma SplitEnd(s: Scan, row: PrintedRow) returns (s1: Scan)
    requires PrintableRow(row) && s.mode == FieldStart && s.record == []
    ensures s1 == Run(s, RecordText(row) + LfAfter(row))
    ensures s1.mode == FieldStart && s1.record == [] && s1.done == s.done + [RecordText(row)]
  {
    RunAppend(s, RecordText(row), LfAfter(row));
    SplitRow(s, row);
    assert [LF][1..] == [];
    s1 := Run(Run(s, RecordText(row)), LfAfter(row));
  }

  lemma {:induction false} SplitRows(s: Scan, rows: seq<PrintedRow>)
    requires forall i :: 0 <= i < |rows| ==> rows[i].cells != [] && PrintableRow(rows[i])
    requires s.mode == FieldStart && s.record == []
    ensures Finish(Run(s, Print(rows))) == s.done + RecordTexts(rows)
    decreases |rows|
  {
    if rows == [] {
      assert s.done + [] == s.done;
      return;
    }
    var row := rows[0];
    var s1 := SplitEnd(s, row);
    RunAppend(s, RecordText(row) + LfAfter(row), Print(rows[1..]));
    SplitRows(s1, rows[1..]);
    assert RecordTexts(rows) == [RecordText(row)] + RecordTexts(rows[1..]);
    assert s.done + [RecordText(row)] + RecordTexts(rows[1..]) == s.done + RecordTexts(rows);
  }

  // ---------------------------------------------------------------------
  // The reader on printed rows
  // ---------------------------------------------------------------------

  lemma {:induction false} ReadDoubled(r: Reader, value: Text, limit: nat)
    requires r.state == InQuoted && |r.field| + |value| <= limit
    ensures Process(r, Doubled(value), limit) == Go(r.(field := r.field + value))
    decreases |value|
  {
    if value == [] {
      assert r.field + [] == r.field;
      return;
    }
    var head := if value[0] == QUOTE then [QUOTE, QUOTE] else [value[0]];
    var r1 := r.(field := r.field + [value[0]]);
    assert head[1..] == if value[0] == QUOTE then [QUOTE] else [];
    assert [value[0]][1..] == [];
    ProcessSnoc(r, [value[0]], QUOTE, limit);
    assert Process(r, head, limit) == Go(r1);
    ProcessAppend(r, head, Doubled(value[1..]), limit);
    ReadDoubled(r1, value[1..], limit);
    assert r.field + [value[0]] + value[1..] == r.field + value;
  }

  lemma {:induction false} ReadBare(r: Reader, value: Text, limit: nat)
    requires r.state == InField && BareChars(value) && |r.field| + |value| <= limit
    ensures Process(r, value, limit) == Go(r.(field := r.field + value))
    decreases |value|
  {
    if value == [] {
      assert r.field + [] == r.field;
    } else {
      ReadBare(r.(field := r.field + [value[0]]), value[1..], limit);
      assert r.field + [value[0]] + value[1..] == r.field + value;
    }
  }

  function StateAfterCell(start: State, c: Cell): State {
    if c.quoted then QuoteInQuotedField else if c.value == [] then start else InField
  }

  lemma ReadCell(r: Reader, c: Cell, limit: nat)
    requires (r.state == StartRecord || r.state == StartField) && r.field == []
    requires Printable(c) && |c.value| <= limit
    ensures Process(r, PrintCell(c), limit) == Go(Reader(StateAfterCell(r.state, c), r.fields, c.value))
  {
    if c.quoted {
      var inside := r.(state := InQuoted);
      ReadDoubled(inside, c.value, limit);
      ProcessSnoc(inside, Doubled(c.value), QUOTE, limit);
      assert PrintCell(c)[1..] == Doubled(c.value) + [QUOTE];
      assert [] + c.value == c.value;
    } else if c.value != [] {
      ReadBare(Reader(InField, r.fields, [c.value[0]]), c.value[1..], limit);
      assert [] + [c.value[0]] == [c.value[0]] && [c.value[0]] + c.value[1..] == c.value;
    }
  }

  lemma {:induction false} ReadCells(r: Reader, cells: seq<Cell>, last: int, limit: nat)
    requires (r.state == StartRecord || r.state == StartField) && r.field == []
    requires cells != [] && Newline(last)
    requires forall i :: 0 <= i < |cells| ==> Printable(cells[i]) && |cells[i].value| <= limit
    requires r.state == StartRecord ==> cells != [Cell([], false)]
    ensures Process(r, PrintCells(cells) + [last], limit) == Go(Reader(EatCrnl, r.fields + Values(cells), []))
    decreases |cells|
  {
    var first := PrintCell(cells[0]);
    ReadCell(r, cells[0], limit);
    if |cells| == 1 {
      assert cells == [cells[0]];
      ProcessSnoc(r, first, last, limit);
      assert Values(cells) == [cells[0].value];
    } else {
      var rest := PrintCells(cells[1..]) + [last];
      assert PrintCells(cells) + [last] == (first + [COMMA]) + rest;
      ProcessSnoc(r, first, COMMA, limit);
      ProcessAppend(r, first + [COMMA], rest, limit);
      ReadCells(Reader(StartField, r.fields + [cells[0].value], []), cells[1..], last, limit);
      assert r.fields + [cells[0].value] + Values(cells[1..]) == r.fields + Values(cells);
    }
  }

  /** Printed rows within the limits survive splitting and parsing. */
  lemma RoundTrip(rows: seq<PrintedRow>, maxRecord: nat, preview: nat, maxField: nat)
    requires forall i :: 0 <= i < |rows| ==> rows[i].cells != [] && PrintableRow(rows[i])
    requires forall i :: 0 <= i < |rows| ==> |RecordText(rows[i])| <= maxRecord
    requires forall i, j :: 0 <= i < |rows| && 0 <= j < |rows[i].cells| ==> |rows[i].cells[j].value| <= maxField
    ensures var out := CollapseAll(Records(Print(rows)), maxRecord, preview);
            && |out| == |rows|
            && forall i :: 0 <= i < |rows| ==>
                 !out[i].truncated && ParseRecord(out[i].text, maxField) == Fields(Values(rows[i].cells))
  {
    SplitRows(START, rows);
    assert [] + RecordTexts(rows) == RecordTexts(rows);
    assert Records(Print(rows)) == RecordTexts(rows);
    forall i | 0 <= i < |rows|
      ensures ParseRecord(RecordText(rows[i]), maxField) == Fields(Values(rows[i].cells))
    {
      assert Records(Print(rows))[i] == RecordText(rows[i]);
      OneRowPerRecord(Print(rows), i, maxField);
      ReadCells(FRESH, rows[i].cells, LastChar(rows[i].end), maxField);
      assert [] + Values(rows[i].cells) == Values(rows[i].cells);
    }
  }
}
