/** The chunked record splitter and the one-character automaton it refines. */
module CsvSplitter {
  import opened Common

  // ---------------------------------------------------------------------
  // Reference: one character at a time (RFC 4180, section 2)
  // ---------------------------------------------------------------------

  datatype Mode = FieldStart | Unquoted | Quoted | QuoteInQuoted

  /** `record` is the unbounded text of the open record, `done` the closed ones;
      `dropLf` says that a CR has just closed a record. */
  datatype Scan = Scan(mode: Mode, dropLf: bool, record: Text, done: seq<Text>)

  const START: Scan := Scan(FieldStart, false, [], [])

  predicate EndsRecord(m: Mode, c: int) {
    m != Quoted && (c == CR || c == LF)
  }

  function NextMode(m: Mode, c: int): Mode {
    if m == Quoted then
      if c == QUOTE then QuoteInQuoted else Quoted
    else if c == QUOTE && (m == QuoteInQuoted || m == FieldStart) then Quoted
    else if c == COMMA then FieldStart
    else Unquoted
  }

  function Consume(s: Scan, c: int): Scan {
    if s.dropLf && c == LF then s.(dropLf := false)
    else if EndsRecord(s.mode, c) then Scan(FieldStart, c == CR, [], s.done + [s.record + [c]])
    else Scan(NextMode(s.mode, c), false, s.record + [c], s.done)
  }

  function Run(s: Scan, text: Text): Scan
    decreases |text|
  {
    if text == [] then s else Run(Consume(s, text[0]), text[1..])
  }

  function Finish(s: Scan): seq<Text> {
    if s.record == [] then s.done else s.done + [s.record]
  }

  /** The logical records of a text, terminator included (only the CR of a CRLF). */
  function Records(text: Text): seq<Text> {
    Finish(Run(START, text))
  }

  lemma {:induction false} RunAppend(s: Scan, a: Text, b: Text)
    ensures Run(s, a + b) == Run(Run(s, a), b)
    decreases |a|
  {
    if a == [] {
      assert a + b == b;
    } else {
      assert (a + b)[1..] == a[1..] + b;
      RunAppend(Consume(s, a[0]), a[1..], b);
    }
  }

  lemma RunSnoc(s: Scan, a: Text, c: int)
    ensures Run(s, a + [c]) == Consume(Run(s, a), c)
  {
    RunAppend(s, a, [c]);
    assert Run(Run(s, a), [c]) == Run(Consume(Run(s, a), c), [c][1..]);
  }

  // ---------------------------------------------------------------------
  // Bounded storage
  // ---------------------------------------------------------------------

  datatype LogicalRecord = LogicalRecord(text: Text, charCount: nat, truncated: bool)

  /** What is kept of a record of unbounded text `full`. */
  function Kept(full: Text, maxChars: nat, preview: nat): Text {
    if |full| <= maxChars then full else full[..Min(preview, maxChars)]
  }

  function Collapse(full: Text, maxChars: nat, preview: nat): LogicalRecord {
    LogicalRecord(Kept(full, maxChars, preview), |full|, |full| > maxChars)
  }

  function CollapseAll(fulls: seq<Text>, maxChars: nat, preview: nat): seq<LogicalRecord> {
    seq(|fulls|, i requires 0 <= i < |fulls| => Collapse(fulls[i], maxChars, preview))
  }

  // ---------------------------------------------------------------------
  // The fast form
  // ---------------------------------------------------------------------

  predicate Special(c: int) {
    c == QUOTE || c == COMMA || c == CR || c == LF
  }

  /** The position of the next regex match, or the end of the chunk. */
  function NextSpecial(chunk: Text, from: nat): (i: nat)
    requires from <= |chunk|
    ensures from <= i <= |chunk|
    ensures forall k :: from <= k < i ==> !Special(chunk[k])
    ensures i < |chunk| ==> Special(chunk[i])
    decreases |chunk| - from
  {
    if from == |chunk| || Special(chunk[from]) then from else NextSpecial(chunk, from + 1)
  }

  function AfterNormal(m: Mode): Mode {
    if m == Quoted then Quoted else Unquoted
  }

  /** A whole run of ordinary characters has the effect the fast form applies at once. */
  lemma {:induction false} NormalRun(s: Scan, run: Text)
    requires run != [] && forall k :: 0 <= k < |run| ==> !Special(run[k])
    ensures Run(s, run) == Scan(AfterNormal(s.mode), false, s.record + run, s.done)
    decreases |run|
  {
    var t := Consume(s, run[0]);
    if |run| == 1 {
      assert run == [run[0]];
    } else {
      NormalRun(t, run[1..]);
      assert s.record + run == t.record + run[1..];
    }
  }

  /** The automaton over a run of ordinary characters and the special one after it. */
  lemma MatchStep(s: Scan, run: Text, c: int)
    requires forall k :: 0 <= k < |run| ==> !Special(run[k])
    requires Special(c) && !(s.dropLf && run == [] && c == LF)
    ensures var m := if run == [] then s.mode else AfterNormal(s.mode);
            var full := s.record + run + [c];
            Run(s, run + [c]) ==
            if EndsRecord(m, c) then Scan(FieldStart, c == CR, [], s.done + [full])
            else Scan(NextMode(m, c), false, full, s.done)
  {
    RunSnoc(s, run, c);
    if run == [] {
      assert s.record + run == s.record;
    } else {
      NormalRun(s, run);
    }
  }

  lemma CollapseAllSnoc(fulls: seq<Text>, full: Text, maxChars: nat, preview: nat)
    ensures CollapseAll(fulls + [full], maxChars, preview) ==
            CollapseAll(fulls, maxChars, preview) + [Collapse(full, maxChars, preview)]
  {
  }

  lemma SplitRun(s: Scan, chunk: Text, from: nat, index: nat)
    requires from <= index < |chunk|
    ensures Run(s, chunk[from..]) == Run(Run(s, chunk[from..index] + [chunk[index]]), chunk[index + 1..])
  {
    assert chunk[from..] == (chunk[from..index] + [chunk[index]]) + chunk[index + 1..];
    RunAppend(s, chunk[from..index] + [chunk[index]], chunk[index + 1..]);
  }

  lemma SplitPiece(chunk: Text, segmentStart: nat, countedStart: nat, index: nat)
    requires segmentStart <= countedStart <= index < |chunk|
    ensures chunk[segmentStart..index + 1] ==
            chunk[segmentStart..countedStart] + chunk[countedStart..index] + [chunk[index]]
  {
  }

  function ModeOf(inQuotes: bool, quotePending: bool, atFieldStart: bool): Mode {
    if inQuotes then (if quotePending then QuoteInQuoted else Quoted)
    else if atFieldStart then FieldStart else Unquoted
  }

  /** The generator's frame; `yielded` collects what it has yielded. */
  class RecordSplitter {
    const maxRecordChars: nat
    const previewChars: nat
    var parts: seq<Text>
    var storedChars: nat
    var recordChars: nat
    var truncated: bool
    var inQuotes: bool
    var quotePending: bool
    var atFieldStart: bool
    var skipLfAfterCr: bool
    var yielded: seq<LogicalRecord>

    constructor (maxRecordChars: nat, previewChars: nat)
      ensures this.maxRecordChars == maxRecordChars && this.previewChars == previewChars
      ensures At(START, [])
    {
      this.maxRecordChars := maxRecordChars;
      this.previewChars := previewChars;
      parts, storedChars, recordChars, truncated := [], 0, 0, false;
      inQuotes, quotePending, atFieldStart, skipLfAfterCr := false, false, true, false;
      yielded := [];
    }

    /** The buffer holds the bounded form of `stored`. */
    ghost predicate Holds(stored: Text)
      reads `parts, `storedChars, `truncated
    {
      && Flatten(parts) == Kept(stored, maxRecordChars, previewChars)
      && storedChars == |Flatten(parts)| <= maxRecordChars
      && truncated == (|stored| > maxRecordChars)
    }

    ghost predicate Flags(m: Mode)
      reads `inQuotes, `quotePending, `atFieldStart
    {
      && m == ModeOf(inQuotes, quotePending, atFieldStart)
      && (quotePending ==> inQuotes)
      && (inQuotes ==> !atFieldStart)
    }

    /** The frame is that of the automaton in state `s`, of whose open record
        only the prefix `stored` has been appended so far. */
    ghost predicate At(s: Scan, stored: Text)
      reads this
    {
      && Holds(stored)
      && Flags(s.mode)
      && recordChars == |s.record|
      && skipLfAfterCr == s.dropLf
      && (s.dropLf ==> s.record == [])
      && yielded == CollapseAll(s.done, maxRecordChars, previewChars)
    }

    method AppendPiece(piece: Text, ghost stored: Text)
      requires Holds(stored)
      modifies `parts, `storedChars, `truncated
      ensures Holds(stored + piece)
    {
      if piece == [] || truncated {
        assert piece == [] ==> stored + piece == stored;
        return;
      }
      var remaining := maxRecordChars - storedChars;
      if |piece| <= remaining {
        FlattenSnoc(parts, piece);
        parts := parts + [piece];
        storedChars := storedChars + |piece|;
        return;
      }
      if remaining > 0 {
        FlattenSnoc(parts, piece[..remaining]);
        parts := parts + [piece[..remaining]];
      }
      assert Flatten(parts) == (stored + piece)[..maxRecordChars];
      var joined := Flatten(parts);
      var preview := joined[..Min(previewChars, |joined|)];
      parts := [preview];
      FlattenSnoc([], preview);
      assert parts == [] + [preview];
      storedChars := |preview|;
      truncated := true;
    }

    /** The quote state after one special character. */
    method TrackQuotes(character: int, ghost m: Mode) returns (isBoundary: bool)
      requires Special(character) && Flags(m)
      modifies `inQuotes, `quotePending, `atFieldStart
      ensures isBoundary == EndsRecord(m, character)
      ensures !isBoundary ==> Flags(NextMode(m, character))
    {
      isBoundary := false;
      var reprocess := true;
      while reprocess
        invariant quotePending ==> inQuotes
        invariant inQuotes ==> !atFieldStart
        invariant reprocess ==> !isBoundary
        invariant reprocess ==> Flags(m) || (m == QuoteInQuoted && character != QUOTE && Flags(Unquoted))
        invariant !reprocess ==> isBoundary == EndsRecord(m, character)
        invariant !reprocess && !isBoundary ==> Flags(NextMode(m, character))
        decreases reprocess, inQuotes
      {
        reprocess := false;
        if inQuotes {
          if quotePending {
            if character == QUOTE {
              quotePending := false;
            } else {
              inQuotes := false;
              quotePending := false;
              reprocess := true;
            }
          } else if character == QUOTE {
            quotePending := true;
          }
        } else if character == CR || character == LF {
          isBoundary := true;
        } else if character == COMMA {
          atFieldStart := true;
        } else if character == QUOTE && atFieldStart {
          inQuotes := true;
          atFieldStart := false;
        } else {
          atFieldStart := false;
        }
      }
    }

    /** The skipped run of `count` ordinary characters, applied at once. */
    method CountNormal(count: nat, ghost m: Mode)
      requires Flags(m)
      modifies `recordChars, `inQuotes, `quotePending, `atFieldStart
      ensures recordChars == old(recordChars) + count
      ensures Flags(if count == 0 then m else AfterNormal(m))
    {
      if count != 0 {
        recordChars := recordChars + count;
        if inQuotes && quotePending {
          inQuotes := false;
          quotePending := false;
        }
        if !inQuotes {
          atFieldStart := false;
        }
      }
    }

    /** Closes the record whose last piece is `piece`. */
    method YieldRecord(piece: Text, ghost s: Scan, ghost stored: Text, ghost full: Text)
      requires Holds(stored) && full == stored + piece && recordChars == |full|
      requires yielded == CollapseAll(s.done, maxRecordChars, previewChars)
      modifies `parts, `storedChars, `recordChars, `truncated, `yielded
      ensures Holds([]) && recordChars == 0
      ensures yielded == CollapseAll(s.done + [full], maxRecordChars, previewChars)
    {
      AppendPiece(piece, stored);
      CollapseAllSnoc(s.done, full, maxRecordChars, previewChars);
      yielded := yielded + [LogicalRecord(Flatten(parts), recordChars, truncated)];
      parts := [];
      storedChars := 0;
      recordChars := 0;
      truncated := false;
    }

    /** A regex match that is not the LF of a CRLF: `normal` ordinary characters,
        then `character`; `piece` is the part of the record not yet appended. */
    method HandleMatch(normal: Text, character: int, piece: Text, ghost s: Scan, ghost stored: Text)
      returns (isBoundary: bool)
      requires Special(character) && forall k :: 0 <= k < |normal| ==> !Special(normal[k])
      requires !(s.dropLf && normal == [] && character == LF)
      requires At(s.(dropLf := false), stored)
      requires stored + piece == s.record + normal + [character]
      modifies this
      ensures At(Run(s, normal + [character]), if isBoundary then [] else stored)
      ensures isBoundary == (Run(s, normal + [character]).record == [])
      ensures !isBoundary ==> !skipLfAfterCr && Run(s, normal + [character]).record == stored + piece
    {
      MatchStep(s, normal, character);
      ghost var m := if normal == [] then s.mode else AfterNormal(s.mode);
      CountNormal(|normal|, s.mode);
      recordChars := recordChars + 1;
      isBoundary := TrackQuotes(character, m);
      if isBoundary {
        YieldRecord(piece, s, stored, s.record + normal + [character]);
        inQuotes := false;
        quotePending := false;
        atFieldStart := true;
        skipLfAfterCr := character == CR;
      }
    }

    /** The loop body: the match at `index`, reached from `countedStart`. */
    method StepMatch(chunk: Text, segmentStart: nat, countedStart: nat, index: nat,
                     ghost s: Scan, ghost stored: Text)
      returns (segmentStart': nat, ghost s': Scan, ghost stored': Text)
      requires segmentStart <= countedStart <= index < |chunk| && Special(chunk[index])
      requires forall k :: countedStart <= k < index ==> !Special(chunk[k])
      requires At(s, stored) && s.record == stored + chunk[segmentStart..countedStart]
      requires skipLfAfterCr ==> segmentStart == countedStart
      modifies this
      ensures segmentStart' <= index + 1
      ensures Run(s, chunk[countedStart..]) == Run(s', chunk[index + 1..])
      ensures At(s', stored') && s'.record == stored' + chunk[segmentStart'..index + 1]
      ensures skipLfAfterCr ==> segmentStart' == index + 1
    {
      s' := Run(s, chunk[countedStart..index] + [chunk[index]]);
      SplitRun(s, chunk, countedStart, index);
      var character := chunk[index];
      if skipLfAfterCr {
        if index == segmentStart && character == LF {
          assert chunk[countedStart..index] == [];
          RunSnoc(s, [], character);
          skipLfAfterCr := false;
          segmentStart', stored' := index + 1, stored;
          return;
        }
        skipLfAfterCr := false;
      }
      SplitPiece(chunk, segmentStart, countedStart, index);
      var piece := chunk[segmentStart..index + 1];
      assert stored + piece == s.record + chunk[countedStart..index] + [character];
      var isBoundary := HandleMatch(chunk[countedStart..index], character, piece, s, stored);
      if isBoundary {
        segmentStart', stored' := index + 1, [];
      } else {
        segmentStart', stored' := segmentStart, stored;
      }
    }

    method FeedChunk(chunk: Text, ghost s: Scan)
      requires At(s, s.record)
      modifies this
      ensures At(Run(s, chunk), Run(s, chunk).record)
    {
      var segmentStart: nat, countedStart: nat := 0, 0;
      ghost var stored, cur := s.record, s;
      var index := NextSpecial(chunk, 0);
      while index < |chunk|
        invariant segmentStart <= countedStart <= index <= |chunk|
        invariant index == NextSpecial(chunk, countedStart)
        invariant Run(s, chunk) == Run(cur, chunk[countedStart..])
        invariant At(cur, stored) && cur.record == stored + chunk[segmentStart..countedStart]
        invariant skipLfAfterCr ==> segmentStart == countedStart
        decreases |chunk| - countedStart
      {
        segmentStart, cur, stored := StepMatch(chunk, segmentStart, countedStart, index, cur, stored);
        countedStart := index + 1;
        index := NextSpecial(chunk, countedStart);
      }
      FlushChunk(chunk, segmentStart, countedStart, cur, stored);
    }

    /** The ordinary characters after the last match, then the piece not yet appended. */
    method FlushChunk(chunk: Text, segmentStart: nat, countedStart: nat, ghost s: Scan, ghost stored: Text)
      requires segmentStart <= countedStart <= |chunk|
      requires forall k :: countedStart <= k < |chunk| ==> !Special(chunk[k])
      requires At(s, stored) && s.record == stored + chunk[segmentStart..countedStart]
      modifies this
      ensures At(Run(s, chunk[countedStart..]), Run(s, chunk[countedStart..]).record)
    {
      ghost var tail := chunk[countedStart..];
      if tail != [] {
        NormalRun(s, tail);
      }
      if countedStart < |chunk| {
        skipLfAfterCr := false;
      }
      CountNormal(|chunk| - countedStart, s.mode);
      assert chunk[segmentStart..] == chunk[segmentStart..countedStart] + tail;
      AppendPiece(chunk[segmentStart..], stored);
      assert stored + chunk[segmentStart..] == Run(s, tail).record;
    }

    /** The record left open at the end of the stream. */
    method Close(ghost s: Scan)
      requires At(s, s.record)
      modifies `yielded
      ensures yielded == CollapseAll(Finish(s), maxRecordChars, previewChars)
    {
      if recordChars != 0 {
        CollapseAllSnoc(s.done, s.record, maxRecordChars, previewChars);
        yielded := yielded + [LogicalRecord(Flatten(parts), recordChars, truncated)];
      }
    }
  }

  /** The text a reader gets from successive reads: up to the first empty one. */
  function Received(pieces: seq<Text>): Text {
    if pieces == [] || pieces[0] == [] then [] else pieces[0] + Received(pieces[1..])
  }

  /** The splitter yields the automaton's records, each in bounded form,
      however the text was cut into pieces. */
  method Split(pieces: seq<Text>, maxRecordChars: nat, previewChars: nat)
    returns (records: seq<LogicalRecord>)
    ensures records == CollapseAll(Records(Received(pieces)), maxRecordChars, previewChars)
  {
    var splitter := new RecordSplitter(maxRecordChars, previewChars);
    var i := 0;
    ghost var s := START;
    while i < |pieces| && pieces[i] != []
      invariant i <= |pieces|
      invariant fresh(splitter)
      invariant splitter.maxRecordChars == maxRecordChars && splitter.previewChars == previewChars
      invariant splitter.At(s, s.record)
      invariant Run(START, Received(pieces)) == Run(s, Received(pieces[i..]))
    {
      splitter.FeedChunk(pieces[i], s);
      assert pieces[i..][1..] == pieces[i + 1..];
      RunAppend(s, pieces[i], Received(pieces[i + 1..]));
      s := Run(s, pieces[i]);
      i := i + 1;
    }
    splitter.Close(s);
    records := splitter.yielded;
  }
}
