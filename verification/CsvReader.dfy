/** The strict reader (comma, double quote, doubled quotes), how one record is
    parsed with it, and its agreement with the splitter. */
module CsvReader {
  import opened Common
  import opened CsvSplitter
  import opened CsvRecords

  datatype State = StartRecord | StartField | InField | InQuoted | QuoteInQuotedField | EatCrnl

  datatype Reader = Reader(state: State, fields: seq<Text>, field: Text)

  datatype Progress = Go(reader: Reader) | Bad | TooLarge

  const FRESH: Reader := Reader(StartRecord, [], [])

  predicate Newline(c: int) {
    c == CR || c == LF
  }

  function AddChar(r: Reader, next: State, c: int, limit: nat): Progress {
    if |r.field| >= limit then TooLarge else Go(Reader(next, r.fields, r.field + [c]))
  }

  function SaveField(r: Reader, next: State): Reader {
    Reader(next, r.fields + [r.field], [])
  }

  function ProcessChar(r: Reader, c: int, limit: nat): Progress {
    match r.state
    case EatCrnl =>
      if Newline(c) then Go(r) else Bad
    case InQuoted =>
      if c == QUOTE then Go(r.(state := QuoteInQuotedField)) else AddChar(r, InQuoted, c, limit)
    case QuoteInQuotedField =>
      if c == QUOTE then AddChar(r, InQuoted, c, limit)
      else if c == COMMA then Go(SaveField(r, StartField))
      else if Newline(c) then Go(SaveField(r, EatCrnl))
      else Bad
    case InField =>
      if Newline(c) then Go(SaveField(r, EatCrnl))
      else if c == COMMA then Go(SaveField(r, StartField))
      else AddChar(r, InField, c, limit)
    case _ =>
      if Newline(c) then Go(if r.state == StartRecord then r.(state := EatCrnl) else SaveField(r, EatCrnl))
      else if c == QUOTE then Go(r.(state := InQuoted))
      else if c == COMMA then Go(SaveField(r, StartField))
      else AddChar(r, InField, c, limit)
  }

  /** The end-of-line signal after the last character of a physical line. */
  function EndOfLine(r: Reader): Reader {
    match r.state
    case InQuoted => r
    case EatCrnl => r.(state := StartRecord)
    case StartRecord => r
    case _ => SaveField(r, StartRecord)
  }

  function Process(r: Reader, text: Text, limit: nat): Progress
    decreases |text|
  {
    if text == [] then Go(r)
    else match ProcessChar(r, text[0], limit)
      case Go(r1) => Process(r1, text[1..], limit)
      case other => other
  }

  datatype Outcome = Row(fields: seq<Text>, rest: seq<Text>) | EndOfInput | Malformed | FieldTooLarge

  /** One call of the reader's iterator over the remaining physical lines. */
  function ReadLines(r: Reader, lines: seq<Text>, limit: nat): Outcome
    decreases |lines|
  {
    if lines == [] then
      if r.field != [] || r.state == InQuoted then Malformed else EndOfInput
    else match Process(r, lines[0], limit)
      case Bad => Malformed
      case TooLarge => FieldTooLarge
      case Go(r0) =>
        var r1 := EndOfLine(r0);
        if r1.state == StartRecord then Row(r1.fields, lines[1..]) else ReadLines(r1, lines[1..], limit)
  }

  function NextRow(lines: seq<Text>, limit: nat): Outcome {
    ReadLines(FRESH, lines, limit)
  }

  /** The end of the first line of a text opened with newline="". */
  function LineEnd(text: Text): (k: nat)
    requires text != []
    ensures 0 < k <= |text|
    ensures k < |text| ==> Newline(text[k - 1])
    decreases |text|
  {
    if text[0] == LF || |text| == 1 then 1
    else if text[0] == CR then (if text[1] == LF then 2 else 1)
    else 1 + LineEnd(text[1..])
  }

  function Lines(text: Text): seq<Text>
    decreases |text|
  {
    if text == [] then [] else [text[..LineEnd(text)]] + Lines(text[LineEnd(text)..])
  }

  datatype Parsed = Fields(row: seq<Text>) | MalformedCsv | FieldOverLimit

  /** One record through the reader: the first row, then the guard against a second. */
  function ParseRecord(text: Text, limit: nat): Parsed {
    match NextRow(Lines(text), limit)
    case EndOfInput => Fields([])
    case Malformed => MalformedCsv
    case FieldTooLarge => FieldOverLimit
    case Row(fields, rest) => if NextRow(rest, limit) == EndOfInput then Fields(fields) else MalformedCsv
  }

  // ---------------------------------------------------------------------
  // The splitter and the reader agree on where a record ends
  // ---------------------------------------------------------------------

  predicate Matches(state: State, m: Mode) {
    match m
    case FieldStart => state == StartRecord || state == StartField
    case Unquoted => state == InField
    case Quoted => state == InQuoted
    case QuoteInQuoted => state == QuoteInQuotedField
  }

  /** No record ends within `t` when scanned from mode `m`. */
  predicate Stays(m: Mode, t: Text)
    decreases |t|
  {
    t == [] || (!EndsRecord(m, t[0]) && Stays(NextMode(m, t[0]), t[1..]))
  }

  function ModeAfter(m: Mode, t: Text): Mode
    decreases |t|
  {
    if t == [] then m else ModeAfter(NextMode(m, t[0]), t[1..])
  }

  lemma {:induction false} StaysSplit(m: Mode, a: Text, b: Text)
    requires Stays(m, a + b)
    ensures Stays(m, a) && Stays(ModeAfter(m, a), b)
    decreases |a|
  {
    if a == [] {
      assert a + b == b;
    } else {
      assert (a + b)[1..] == a[1..] + b;
      StaysSplit(NextMode(m, a[0]), a[1..], b);
    }
  }

  lemma {:induction false} InsideStays(m: Mode, record: Text, t: Text)
    requires Run(Scan(m, false, record, []), t).done == []
    ensures Stays(m, t)
    decreases |t|
  {
    if t != [] {
      var s1 := Consume(Scan(m, false, record, []), t[0]);
      RunKeepsDone(s1, t[1..]);
      InsideStays(NextMode(m, t[0]), record + [t[0]], t[1..]);
    }
  }

  lemma {:induction false} ProcessAppend(r: Reader, a: Text, b: Text, limit: nat)
    ensures Process(r, a + b, limit) ==
            match Process(r, a, limit) case Go(r1) => Process(r1, b, limit) case other => other
    decreases |a|
  {
    if a == [] {
      assert a + b == b;
    } else {
      assert (a + b)[1..] == a[1..] + b;
      match ProcessChar(r, a[0], limit)
      case Go(r1) => ProcessAppend(r1, a[1..], b, limit);
      case _ =>
    }
  }

  lemma ProcessSnoc(r: Reader, a: Text, c: int, limit: nat)
    ensures Process(r, a + [c], limit) ==
            match Process(r, a, limit) case Go(r1) => ProcessChar(r1, c, limit) case other => other
  {
    ProcessAppend(r, a, [c], limit);
    match Process(r, a, limit)
    case Go(r1) =>
      assert [c][1..] == [];
    case _ =>
  }

  /** Until it fails, the reader follows the splitter's mode. */
  lemma {:induction false} ReaderFollows(r: Reader, m: Mode, t: Text, limit: nat)
    requires Matches(r.state, m) && Stays(m, t)
    ensures Process(r, t, limit).Go? ==>
              var state := Process(r, t, limit).reader.state;
              Matches(state, ModeAfter(m, t)) && (t != [] ==> state != StartRecord)
    decreases |t|
  {
    if t != [] {
      match ProcessChar(r, t[0], limit)
      case Go(r1) => ReaderFollows(r1, NextMode(m, t[0]), t[1..], limit);
      case _ =>
    }
  }

  /** What the record's end makes of the reader. */
  function Closed(p: Progress): Outcome {
    match p
    case Bad => Malformed
    case TooLarge => FieldTooLarge
    case Go(r) =>
      if r.state == InQuoted then Malformed
      else if r.state == EatCrnl then Row(r.fields, [])
      else Row(r.fields + [r.field], [])
  }

  /** The last (or only) physical line of a record. */
  lemma LastLine(r: Reader, m: Mode, t: Text, limit: nat)
    requires t != [] && Matches(r.state, m) && Stays(m, t[..|t| - 1])
    ensures ReadLines(r, [t], limit) == Closed(Process(r, t, limit))
  {
    var k := |t| - 1;
    assert t == t[..k] + [t[k]];
    ReaderFollows(r, m, t[..k], limit);
    ProcessSnoc(r, t[..k], t[k], limit);
    assert [t][1..] == [];
  }

  /** The physical lines of a record are read as if they were one. */
  lemma {:induction false} LinesAsOne(r: Reader, m: Mode, t: Text, limit: nat)
    requires t != [] && Matches(r.state, m) && Stays(m, t[..|t| - 1])
    ensures ReadLines(r, Lines(t), limit) == Closed(Process(r, t, limit))
    decreases |t|
  {
    var k := LineEnd(t);
    if k == |t| {
      assert t[..k] == t && t[k..] == [];
      assert Lines(t) == [t];
      LastLine(r, m, t, limit);
      return;
    }
    var line, rest := t[..k], t[k..];
    assert t[..|t| - 1] == line + rest[..|rest| - 1];
    StaysSplit(m, line, rest[..|rest| - 1]);
    NewlineInsideIsQuoted(m, line);
    ReaderFollows(r, m, line, limit);
    assert t == line + rest;
    ProcessAppend(r, line, rest, limit);
    assert Lines(t) == [line] + Lines(rest) && Lines(t)[1..] == Lines(rest);
    match Process(r, line, limit)
    case Go(r1) => LinesAsOne(r1, Quoted, rest, limit);
    case _ =>
  }

  /** A line break within a record lies inside quotes. */
  lemma NewlineInsideIsQuoted(m: Mode, line: Text)
    requires line != [] && Newline(line[|line| - 1]) && Stays(m, line)
    ensures ModeAfter(m, line) == Quoted
  {
    var k := |line| - 1;
    assert line == line[..k] + [line[k]];
    StaysSplit(m, line[..k], [line[k]]);
    ModeAfterSnoc(m, line[..k], line[k]);
  }

  lemma {:induction false} ModeAfterSnoc(m: Mode, t: Text, c: int)
    ensures ModeAfter(m, t + [c]) == NextMode(ModeAfter(m, t), c)
    decreases |t|
  {
    if t == [] {
      assert [c][1..] == [] && t + [c] == [c];
    } else {
      assert (t + [c])[1..] == t[1..] + [c];
      ModeAfterSnoc(NextMode(m, t[0]), t[1..], c);
    }
  }

  /** Every record the splitter yields whole makes the reader produce exactly one
      row or fail in it; the guard against a second row never fires. */
  lemma OneRowPerRecord(text: Text, i: nat, limit: nat)
    requires i < |Records(text)|
    ensures var t := Records(text)[i];
            var out := NextRow(Lines(t), limit);
            && out == Closed(Process(FRESH, t, limit))
            && (out.Row? ==> out.rest == [] && ParseRecord(t, limit) == Fields(out.fields))
            && (out.Row? || out.Malformed? || out.FieldTooLarge?)
  {
    AllAreRecords(text);
    var t := Records(text)[i];
    InsideStays(FieldStart, [], t[..|t| - 1]);
    LinesAsOne(FRESH, FieldStart, t, limit);
  }
}
