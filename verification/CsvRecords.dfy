/** What the automaton's records are: a lossless cut of the text, bounded by Split. */
module CsvRecords {
  import opened Common
  import opened CsvSplitter

  /** `records` laid end to end give `text`, except that one LF directly after a
      CR-terminated record (or at the start, when `dropLf`) is left out. */
  ghost predicate Weave(records: seq<Text>, text: Text, dropLf: bool)
    decreases |records|, |text|
  {
    if dropLf && text != [] && text[0] == LF then Weave(records, text[1..], false)
    else if records == [] then text == []
    else
      var r := records[0];
      r != [] && r <= text && Weave(records[1..], text[|r|..], r[|r| - 1] == CR)
  }

  lemma {:induction false} RunKeepsDone(s: Scan, text: Text)
    ensures Run(s, text) == var t := Run(s.(done := []), text); t.(done := s.done + t.done)
    decreases |text|
  {
    if text == [] {
      assert s.done + [] == s.done;
    } else {
      var s1 := Consume(s, text[0]);
      var s2 := Consume(s.(done := []), text[0]);
      assert s1.(done := []) == s2.(done := []);
      RunKeepsDone(s1, text[1..]);
      RunKeepsDone(s2, text[1..]);
      assert s1.done == s.done + s2.done;
      var t := Run(s1.(done := []), text[1..]);
      assert s1.done + t.done == s.done + (s2.done + t.done);
    }
  }

  lemma WeaveCons(closed: Text, after: seq<Text>, rest: Text, dropLf: bool)
    requires closed != [] && !(dropLf && closed[0] == LF)
    requires Weave(after, rest, closed[|closed| - 1] == CR)
    ensures Weave([closed] + after, closed + rest, dropLf)
  {
    assert ([closed] + after)[1..] == after;
    assert (closed + rest)[|closed|..] == rest;
  }

  lemma FinishCons(s: Scan, rest: Text, closed: Text)
    requires s.done == [closed]
    ensures Finish(Run(s, rest)) == [closed] + Finish(Run(s.(done := []), rest))
  {
    RunKeepsDone(s, rest);
  }

  lemma WeaveEnd(s: Scan)
    requires s.done == [] && (s.dropLf ==> s.record == [])
    ensures Weave(Finish(s), s.record + [], s.dropLf)
  {
    assert s.record + [] == s.record;
    if s.record != [] {
      assert Finish(s) == [s.record] && s.record[|s.record|..] == [];
      assert [s.record][1..] == [];
    }
  }

  lemma WeaveBoundary(s: Scan, c: int, rest: Text)
    requires s.done == [] && (s.dropLf ==> s.record == [])
    requires EndsRecord(s.mode, c) && !(s.dropLf && c == LF)
    requires Weave(Finish(Run(Scan(FieldStart, c == CR, [], []), rest)), rest, c == CR)
    ensures Weave(Finish(Run(Consume(s, c), rest)), s.record + [c] + rest, s.dropLf)
  {
    var closed := s.record + [c];
    assert s.done + [closed] == [closed];
    FinishCons(Consume(s, c), rest, closed);
    WeaveCons(closed, Finish(Run(Scan(FieldStart, c == CR, [], []), rest)), rest, s.dropLf);
  }

  lemma {:induction false} WeaveFrom(s: Scan, text: Text)
    requires s.done == [] && (s.dropLf ==> s.record == [])
    ensures Weave(Finish(Run(s, text)), s.record + text, s.dropLf)
    decreases |text|
  {
    if text == [] {
      WeaveEnd(s);
    } else {
      var c, rest := text[0], text[1..];
      assert s.record + text == s.record + [c] + rest;
      assert [] + rest == rest && [] + text == text;
      if EndsRecord(s.mode, c) && !(s.dropLf && c == LF) {
        WeaveFrom(Scan(FieldStart, c == CR, [], []), rest);
        WeaveBoundary(s, c, rest);
      } else {
        WeaveFrom(Consume(s, c), rest);
      }
    }
  }

  /** No character is lost, moved or repeated, but the LF of a record-ending CRLF. */
  lemma NothingLost(text: Text)
    ensures Weave(Records(text), text, false)
  {
    WeaveFrom(START, text);
    assert [] + text == text;
  }

  function TotalChars(records: seq<LogicalRecord>): nat {
    if records == [] then 0 else records[0].charCount + TotalChars(records[1..])
  }

  /** The dropped LFs of a weave. */
  ghost function Dropped(records: seq<Text>, text: Text, dropLf: bool): nat
    requires Weave(records, text, dropLf)
    decreases |records|, |text|
  {
    if dropLf && text != [] && text[0] == LF then 1 + Dropped(records, text[1..], false)
    else if records == [] then 0
    else var r := records[0]; Dropped(records[1..], text[|r|..], r[|r| - 1] == CR)
  }

  lemma {:induction false} WeaveCounts(records: seq<Text>, text: Text, dropLf: bool, maxChars: nat, preview: nat)
    requires Weave(records, text, dropLf)
    ensures TotalChars(CollapseAll(records, maxChars, preview)) + Dropped(records, text, dropLf) == |text|
    decreases |records|, |text|
  {
    if dropLf && text != [] && text[0] == LF {
      WeaveCounts(records, text[1..], false, maxChars, preview);
    } else if records != [] {
      var r := records[0];
      WeaveCounts(records[1..], text[|r|..], r[|r| - 1] == CR, maxChars, preview);
      assert CollapseAll(records, maxChars, preview)[1..] == CollapseAll(records[1..], maxChars, preview);
    }
  }

  /** The counts account for the whole input, and what is stored is a prefix of
      the record, whole iff the record is within the limit. */
  lemma CountsAndStorageExact(text: Text, maxChars: nat, preview: nat)
    ensures var out := CollapseAll(Records(text), maxChars, preview);
            && Weave(Records(text), text, false)
            && TotalChars(out) + Dropped(Records(text), text, false) == |text|
            && forall i :: 0 <= i < |out| ==>
                 && out[i].charCount == |Records(text)[i]| > 0
                 && out[i].text <= Records(text)[i]
                 && |out[i].text| <= maxChars
                 && (out[i].truncated <==> out[i].charCount > maxChars)
                 && |out[i].text| == if out[i].truncated then Min(preview, maxChars) else out[i].charCount
  {
    NothingLost(text);
    WeaveCounts(Records(text), text, false, maxChars, preview);
    forall i | 0 <= i < |Records(text)|
      ensures Records(text)[i] != []
    {
      AllAreRecords(text);
    }
  }

  // ---------------------------------------------------------------------
  // The shape of one record
  // ---------------------------------------------------------------------

  /** No record ends within `t`. */
  predicate Inside(t: Text) {
    Run(START, t).done == []
  }

  /** A record: nonempty, and it does not end before its last character. */
  predicate IsRecord(t: Text) {
    t != [] && Inside(t[..|t| - 1])
  }

  ghost predicate WellScanned(s: Scan) {
    && Run(START, s.record) == Scan(s.mode, false, s.record, [])
    && (s.dropLf ==> s.record == [])
    && forall i :: 0 <= i < |s.done| ==> IsRecord(s.done[i])
  }

  lemma ConsumeWellScanned(s: Scan, c: int)
    requires WellScanned(s)
    ensures WellScanned(Consume(s, c))
  {
    RunSnoc(START, s.record, c);
    assert (s.record + [c])[..|s.record|] == s.record;
  }

  lemma {:induction false} RunWellScanned(s: Scan, text: Text)
    requires WellScanned(s)
    ensures WellScanned(Run(s, text))
    decreases |text|
  {
    if text != [] {
      ConsumeWellScanned(s, text[0]);
      RunWellScanned(Consume(s, text[0]), text[1..]);
    }
  }

  lemma AllAreRecords(text: Text)
    ensures forall i :: 0 <= i < |Records(text)| ==> IsRecord(Records(text)[i])
  {
    RunWellScanned(START, text);
    var s := Run(START, text);
    if s.record != [] {
      var k := |s.record| - 1;
      RunAppend(START, s.record[..k], s.record[k..]);
      assert s.record[..k] + s.record[k..] == s.record;
      RunKeepsDone(Run(START, s.record[..k]), s.record[k..]);
    }
  }
}
