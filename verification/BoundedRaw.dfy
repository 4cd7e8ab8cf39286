/** Bounding of the raw data stored with an issue. */
module BoundedRaw {
  import opened Common

  /** The code points of "...[truncated]". */
  const TRUNCATION_MARKER: Text := [46, 46, 46, 91, 116, 114, 117, 110, 99, 97, 116, 101, 100, 93]

  datatype Item = Str(text: Text) | NotText(id: int)

  datatype Value = Single(item: Item) | Listed(items: seq<Item>)

  /** The entries of the dictionary in insertion order. */
  type Raw = seq<(Text, Value)>

  /** What is kept, how much of the total is left, and whether anything was cut. */
  datatype Cut<T> = Cut(kept: T, left: nat, truncated: bool)

  // ---------------------------------------------------------------------
  // The bounding
  // ---------------------------------------------------------------------

  function BoundText(value: Text, limit: nat, left: nat): Cut<Text> {
    var allowed := Min(limit, left);
    if |value| <= allowed then Cut(value, left - |value|, false)
    else
      var kept := if allowed > |TRUNCATION_MARKER| then value[..allowed - |TRUNCATION_MARKER|] + TRUNCATION_MARKER
                  else value[..allowed];
      Cut(kept, left - allowed, true)
  }

  function BoundItem(item: Item, limit: nat, left: nat): Cut<Item> {
    match item
    case NotText(_) => Cut(item, left, false)
    case Str(text) =>
      var cut := BoundText(text, limit, left);
      Cut(Str(cut.kept), cut.left, cut.truncated)
  }

  /** A list is broken off at the first string once nothing is left. */
  function BoundItems(items: seq<Item>, limit: nat, left: nat): Cut<seq<Item>>
    decreases |items|
  {
    if items == [] then Cut([], left, false)
    else if items[0].Str? && left == 0 then Cut([], left, true)
    else
      var first := BoundItem(items[0], limit, left);
      var rest := BoundItems(items[1..], limit, first.left);
      Cut([first.kept] + rest.kept, rest.left, first.truncated || rest.truncated)
  }

  function BoundValue(value: Value, limit: nat, left: nat): Cut<Value> {
    match value
    case Single(item) =>
      var cut := BoundItem(item, limit, left);
      Cut(Single(cut.kept), cut.left, cut.truncated)
    case Listed(items) =>
      var cut := BoundItems(items, limit, left);
      Cut(Listed(cut.kept), cut.left, cut.truncated)
  }

  function BoundEntries(raw: Raw, limit: nat, left: nat): Cut<Raw>
    decreases |raw|
  {
    if raw == [] then Cut([], left, false)
    else
      var first := BoundValue(raw[0].1, limit, left);
      var rest := BoundEntries(raw[1..], limit, first.left);
      Cut([(raw[0].0, first.kept)] + rest.kept, rest.left, first.truncated || rest.truncated)
  }

  /** `cut` put behind what was kept of the elements before. */
  function Behind<T>(kept: seq<T>, truncated: bool, cut: Cut<seq<T>>): Cut<seq<T>> {
    Cut(kept + cut.kept, cut.left, truncated || cut.truncated)
  }

  lemma BehindNothing<T>(cut: Cut<seq<T>>)
    ensures Behind([], false, cut) == cut
  {
    assert [] + cut.kept == cut.kept;
  }

  lemma BehindNext<T>(kept: seq<T>, truncated: bool, first: T, cutFirst: bool, rest: Cut<seq<T>>)
    ensures Behind(kept, truncated, Cut([first] + rest.kept, rest.left, cutFirst || rest.truncated))
         == Behind(kept + [first], truncated || cutFirst, rest)
  {
    assert kept + ([first] + rest.kept) == kept + [first] + rest.kept;
  }

  method BoundList(items: seq<Item>, limit: nat, total: nat) returns (kept: seq<Item>, left: nat, truncated: bool)
    ensures Cut(kept, left, truncated) == BoundItems(items, limit, total)
  {
    kept, left, truncated := [], total, false;
    var i := 0;
    BehindNothing(BoundItems(items, limit, total));
    assert items[0..] == items;
    while i < |items|
      invariant i <= |items|
      invariant Behind(kept, truncated, BoundItems(items[i..], limit, left)) == BoundItems(items, limit, total)
    {
      assert items[i..][1..] == items[i + 1..];
      if items[i].Str? && left == 0 {
        truncated := true;
        assert kept + [] == kept;
        return;
      }
      var cut := BoundItem(items[i], limit, left);
      BehindNext(kept, truncated, cut.kept, cut.truncated, BoundItems(items[i + 1..], limit, cut.left));
      kept, left, truncated := kept + [cut.kept], cut.left, truncated || cut.truncated;
      i := i + 1;
    }
    assert kept + [] == kept;
  }

  /** `truncated` is the key that is added to the result. */
  method BoundRawData(raw: Raw, limit: nat, total: nat) returns (result: Raw, left: nat, truncated: bool)
    ensures Cut(result, left, truncated) == BoundEntries(raw, limit, total)
  {
    result, left, truncated := [], total, false;
    BehindNothing(BoundEntries(raw, limit, total));
    assert raw[0..] == raw;
    for i := 0 to |raw|
      invariant Behind(result, truncated, BoundEntries(raw[i..], limit, left)) == BoundEntries(raw, limit, total)
    {
      assert raw[i..][1..] == raw[i + 1..];
      ghost var first := BoundValue(raw[i].1, limit, left);
      BehindNext(result, truncated, (raw[i].0, first.kept), first.truncated,
                 BoundEntries(raw[i + 1..], limit, first.left));
      match raw[i].1 {
        case Single(item) =>
          var cut := BoundItem(item, limit, left);
          result, left, truncated := result + [(raw[i].0, Single(cut.kept))], cut.left, truncated || cut.truncated;
        case Listed(items) =>
          var kept, rest, cutShort := BoundList(items, limit, left);
          result, left, truncated := result + [(raw[i].0, Listed(kept))], rest, truncated || cutShort;
      }
    }
    assert result + [] == result;
  }

  // ---------------------------------------------------------------------
  // What the bounding promises
  // ---------------------------------------------------------------------

  function ItemsOf(value: Value): seq<Item> {
    match value
    case Single(item) => [item]
    case Listed(items) => items
  }

  function Chars(items: seq<Item>): nat
    decreases |items|
  {
    if items == [] then 0 else (if items[0].Str? then |items[0].text| else 0) + Chars(items[1..])
  }

  function TotalChars(raw: Raw): nat
    decreases |raw|
  {
    if raw == [] then 0 else Chars(ItemsOf(raw[0].1)) + TotalChars(raw[1..])
  }

  predicate Short(items: seq<Item>, limit: nat) {
    forall i :: 0 <= i < |items| ==> items[i].Str? ==> |items[i].text| <= limit
  }

  predicate AllShort(raw: Raw, limit: nat) {
    forall i :: 0 <= i < |raw| ==> Short(ItemsOf(raw[i].1), limit)
  }

  /** `kept` begins as `text` does, is as long as allowed, and has the marker at its end
      when there is room for more than the marker. */
  ghost predicate IsCutOf(kept: Text, text: Text, allowed: nat) {
    && |kept| == allowed < |text|
    && exists k :: 0 <= k <= |kept| && kept[..k] <= text
         && kept[k..] == if allowed > |TRUNCATION_MARKER| then TRUNCATION_MARKER else []
  }

  /** A cut text is a proper prefix within the limits, ended by the marker when
      there is room for more than the marker. */
  lemma CutText(value: Text, limit: nat, left: nat)
    requires BoundText(value, limit, left).truncated
    ensures IsCutOf(BoundText(value, limit, left).kept, value, Min(limit, left))
  {
    var kept, allowed := BoundText(value, limit, left).kept, Min(limit, left);
    var k := if allowed > |TRUNCATION_MARKER| then allowed - |TRUNCATION_MARKER| else allowed;
    assert kept[..k] == value[..k];
  }

  /** What is kept of an item when `left` of the total is left. */
  ghost predicate ItemKept(item: Item, kept: Item, limit: nat, left: nat) {
    match item
    case NotText(_) => kept == item
    case Str(text) =>
      && kept.Str?
      && if |text| <= Min(limit, left) then kept == item else IsCutOf(kept.text, text, Min(limit, left))
  }

  lemma ItemIsKept(item: Item, limit: nat, left: nat)
    ensures var cut := BoundItem(item, limit, left);
            ItemKept(item, cut.kept, limit, left) && Chars([cut.kept]) <= left && cut.left == left - Chars([cut.kept])
  {
    ItemBounded(item, limit, left);
    if item.Str? && |item.text| > Min(limit, left) {
      CutText(item.text, limit, left);
    }
  }

  /** What is kept of a list: every item up to the first text for which nothing of the
      total is left, each one whole if it fits and else cut to what is allowed. */
  ghost predicate ListKept(items: seq<Item>, kept: seq<Item>, limit: nat, left: nat)
    decreases |items|
  {
    if items == [] || (items[0].Str? && left == 0) then kept == []
    else
      && kept != [] && ItemKept(items[0], kept[0], limit, left) && Chars([kept[0]]) <= left
      && ListKept(items[1..], kept[1..], limit, left - Chars([kept[0]]))
  }

  lemma {:induction false} ListIsKept(items: seq<Item>, limit: nat, left: nat)
    ensures ListKept(items, BoundItems(items, limit, left).kept, limit, left)
    decreases |items|
  {
    if items != [] && !(items[0].Str? && left == 0) {
      var first := BoundItem(items[0], limit, left);
      var rest := BoundItems(items[1..], limit, first.left);
      ItemIsKept(items[0], limit, left);
      ListIsKept(items[1..], limit, first.left);
      assert ([first.kept] + rest.kept)[1..] == rest.kept;
    }
  }

  lemma {:induction false} NotEmptied(items: seq<Item>, kept: seq<Item>, limit: nat, left: nat, j: nat)
    requires ListKept(items, kept, limit, left) && limit > 0 && j < |kept|
    ensures j < |items| && (items[j].Str? && items[j].text != [] ==> kept[j].Str? && kept[j].text != [])
    decreases j
  {
    if j > 0 {
      NotEmptied(items[1..], kept[1..], limit, left - Chars([kept[0]]), j - 1);
    }
  }

  /** No text that is kept of a list has been emptied. */
  lemma KeptNotEmptied(items: seq<Item>, limit: nat, left: nat, j: nat)
    requires limit > 0 && j < |BoundItems(items, limit, left).kept|
    ensures var kept := BoundItems(items, limit, left).kept;
            j < |items| && (items[j].Str? && items[j].text != [] ==> kept[j].Str? && kept[j].text != [])
  {
    ListIsKept(items, limit, left);
    NotEmptied(items, BoundItems(items, limit, left).kept, limit, left, j);
  }

  lemma ItemBounded(item: Item, limit: nat, left: nat)
    ensures var cut := BoundItem(item, limit, left);
            && cut.left + Chars([cut.kept]) == left && Short([cut.kept], limit)
            && (cut.truncated <==> cut.kept != item)
            && (cut.truncated <==> item.Str? && |item.text| > Min(limit, left))
  {
    var cut := BoundItem(item, limit, left);
    assert [cut.kept][1..] == [];
  }

  lemma ShortBefore(item: Item, items: seq<Item>, limit: nat)
    requires Short([item], limit) && Short(items, limit)
    ensures Short([item] + items, limit)
  {
    assert [item][0] == item;
  }

  lemma {:induction false} ItemsBounded(items: seq<Item>, limit: nat, left: nat)
    ensures var cut := BoundItems(items, limit, left);
            && cut.left + Chars(cut.kept) == left && Short(cut.kept, limit) && |cut.kept| <= |items|
            && (cut.truncated <==> cut.kept != items)
    decreases |items|
  {
    if items != [] && !(items[0].Str? && left == 0) {
      var first := BoundItem(items[0], limit, left);
      var rest := BoundItems(items[1..], limit, first.left);
      ItemBounded(items[0], limit, left);
      ItemsBounded(items[1..], limit, first.left);
      ShortBefore(first.kept, rest.kept, limit);
      assert [first.kept][1..] == [] && ([first.kept] + rest.kept)[1..] == rest.kept;
      assert items == [items[0]] + items[1..];
    }
  }

  lemma ValueBounded(value: Value, limit: nat, left: nat)
    ensures var cut := BoundValue(value, limit, left);
            && cut.left + Chars(ItemsOf(cut.kept)) == left && Short(ItemsOf(cut.kept), limit)
            && (cut.truncated <==> cut.kept != value)
  {
    match value
    case Single(item) => ItemBounded(item, limit, left);
    case Listed(items) => ItemsBounded(items, limit, left);
  }

  lemma EntryBounded(raw: Raw, limit: nat, left: nat, first: Cut<Value>, rest: Cut<Raw>)
    requires raw != [] && first == BoundValue(raw[0].1, limit, left)
    requires rest == BoundEntries(raw[1..], limit, first.left)
    requires (rest.truncated <==> rest.kept != raw[1..]) && (first.truncated <==> first.kept != raw[0].1)
    ensures var entry, cut := (raw[0].0, first.kept), BoundEntries(raw, limit, left);
            && cut.kept == [entry] + rest.kept && cut.kept[1..] == rest.kept && cut.left == rest.left
            && (cut.truncated <==> cut.kept != raw)
  {
    assert raw == [raw[0]] + raw[1..] && raw[0] == (raw[0].0, raw[0].1);
  }

  /** Every string is within the value limit, all strings together within the
      total, every key is kept, and the data is marked just when it was changed. */
  lemma {:induction false} RawBounded(raw: Raw, limit: nat, left: nat)
    ensures var cut := BoundEntries(raw, limit, left);
            && cut.left + TotalChars(cut.kept) == left && AllShort(cut.kept, limit)
            && |cut.kept| == |raw| && (forall i :: 0 <= i < |raw| ==> cut.kept[i].0 == raw[i].0)
            && (cut.truncated <==> cut.kept != raw)
    decreases |raw|
  {
    if raw != [] {
      var first := BoundValue(raw[0].1, limit, left);
      var rest := BoundEntries(raw[1..], limit, first.left);
      ValueBounded(raw[0].1, limit, left);
      RawBounded(raw[1..], limit, first.left);
      EntryBounded(raw, limit, left, first, rest);
    }
  }

  // ---------------------------------------------------------------------
  // When data is left unchanged
  // ---------------------------------------------------------------------

  /** A string of the data, and whether it stands in a list. */
  datatype Piece = Piece(text: Text, listed: bool)

  function Pieces(items: seq<Item>, listed: bool): seq<Piece>
    decreases |items|
  {
    if items == [] then []
    else (if items[0].Str? then [Piece(items[0].text, listed)] else []) + Pieces(items[1..], listed)
  }

  function PiecesOf(raw: Raw): seq<Piece>
    decreases |raw|
  {
    if raw == [] then [] else Pieces(ItemsOf(raw[0].1), raw[0].1.Listed?) + PiecesOf(raw[1..])
  }

  function Length(ps: seq<Piece>): nat
    decreases |ps|
  {
    if ps == [] then 0 else |ps[0].text| + Length(ps[1..])
  }

  /** Each string is within both limits, and no list goes on with a string, not
      even an empty one, once the total is used up. */
  predicate Fits(ps: seq<Piece>, limit: nat, total: nat) {
    forall i :: 0 <= i < |ps| ==> PieceFits(ps, i, limit, total)
  }

  predicate PieceFits(ps: seq<Piece>, i: nat, limit: nat, total: nat)
    requires i < |ps|
  {
    && |ps[i].text| <= limit && Length(ps[..i]) + |ps[i].text| <= total
    && (ps[i].listed ==> Length(ps[..i]) < total)
  }

  lemma {:induction false} LengthAppend(a: seq<Piece>, b: seq<Piece>)
    ensures Length(a + b) == Length(a) + Length(b)
    decreases |a|
  {
    if a == [] {
      assert a + b == b;
    } else {
      assert (a + b)[1..] == a[1..] + b;
      LengthAppend(a[1..], b);
    }
  }

  lemma PieceShifts(a: seq<Piece>, b: seq<Piece>, i: nat, limit: nat, total: nat)
    requires |a| <= i < |a + b| && Length(a) <= total
    ensures PieceFits(a + b, i, limit, total) <==> PieceFits(b, i - |a|, limit, total - Length(a))
  {
    var j := i - |a|;
    assert (a + b)[..i] == a + b[..j];
    LengthAppend(a, b[..j]);
    assert (a + b)[i] == b[j];
  }

  lemma PieceStays(a: seq<Piece>, b: seq<Piece>, i: nat, limit: nat, total: nat)
    requires i < |a|
    ensures PieceFits(a + b, i, limit, total) <==> PieceFits(a, i, limit, total)
  {
    assert (a + b)[..i] == a[..i];
  }

  lemma {:induction false} FittingLength(ps: seq<Piece>, limit: nat, total: nat)
    requires Fits(ps, limit, total)
    ensures Length(ps) <= total
  {
    if ps != [] {
      var last := |ps| - 1;
      assert PieceFits(ps, last, limit, total);
      assert ps == ps[..last] + [ps[last]];
      assert [ps[last]][1..] == [];
      LengthAppend(ps[..last], [ps[last]]);
    }
  }

  lemma FitsAppend(a: seq<Piece>, b: seq<Piece>, limit: nat, total: nat)
    ensures Fits(a + b, limit, total) <==>
              Fits(a, limit, total) && Length(a) <= total && Fits(b, limit, total - Length(a))
  {
    if Fits(a + b, limit, total) {
      forall i | 0 <= i < |a|
        ensures PieceFits(a, i, limit, total)
      {
        assert PieceFits(a + b, i, limit, total);
        PieceStays(a, b, i, limit, total);
      }
      FittingLength(a, limit, total);
      var left := total - Length(a);
      forall i | 0 <= i < |b|
        ensures PieceFits(b, i, limit, left)
      {
        assert PieceFits(a + b, |a| + i, limit, total);
        PieceShifts(a, b, |a| + i, limit, total);
      }
    } else if Fits(a, limit, total) && Length(a) <= total && Fits(b, limit, total - Length(a)) {
      forall i | 0 <= i < |a + b|
        ensures PieceFits(a + b, i, limit, total)
      {
        if i < |a| {
          PieceStays(a, b, i, limit, total);
        } else {
          assert PieceFits(b, i - |a|, limit, total - Length(a));
          PieceShifts(a, b, i, limit, total);
        }
      }
    }
  }

  lemma OneFits(text: Text, listed: bool, limit: nat, left: nat)
    ensures Fits([Piece(text, listed)], limit, left) <==> |text| <= Min(limit, left) && (listed ==> left > 0)
    ensures Length([Piece(text, listed)]) == |text|
  {
    var ps := [Piece(text, listed)];
    assert ps[..0] == [] && ps[1..] == [];
    assert PieceFits(ps, 0, limit, left) <==> |text| <= Min(limit, left) && (listed ==> left > 0);
  }

  lemma {:induction false} ItemsFit(items: seq<Item>, limit: nat, left: nat)
    ensures var cut := BoundItems(items, limit, left);
            && (!cut.truncated <==> Fits(Pieces(items, true), limit, left))
            && (!cut.truncated ==> cut.left == left - Length(Pieces(items, true)))
    decreases |items|
  {
    if items != [] {
      var rest := Pieces(items[1..], true);
      if items[0].Str? {
        OneFits(items[0].text, true, limit, left);
        FitsAppend([Piece(items[0].text, true)], rest, limit, left);
        LengthAppend([Piece(items[0].text, true)], rest);
      } else {
        assert [] + rest == rest;
      }
      if !(items[0].Str? && left == 0) {
        ItemsFit(items[1..], limit, BoundItem(items[0], limit, left).left);
      }
    }
  }

  lemma ValueFits(value: Value, limit: nat, left: nat)
    ensures var cut, ps := BoundValue(value, limit, left), Pieces(ItemsOf(value), value.Listed?);
            && (!cut.truncated <==> Fits(ps, limit, left))
            && (!cut.truncated ==> cut.left == left - Length(ps))
  {
    match value
    case Single(item) =>
      assert [item][1..] == [];
      if item.Str? {
        OneFits(item.text, false, limit, left);
        assert Pieces([item], false) == [Piece(item.text, false)];
      } else {
        assert Pieces([item], false) == [];
      }
    case Listed(items) => ItemsFit(items, limit, left);
  }

  /** The data is left unchanged, and not marked, just when its strings fit. */
  lemma {:induction false} UnchangedIffFits(raw: Raw, limit: nat, left: nat)
    ensures var cut := BoundEntries(raw, limit, left);
            && (!cut.truncated <==> Fits(PiecesOf(raw), limit, left))
            && (!cut.truncated ==> cut.left == left - Length(PiecesOf(raw)))
    decreases |raw|
  {
    if raw != [] {
      var first := BoundValue(raw[0].1, limit, left);
      var ps := Pieces(ItemsOf(raw[0].1), raw[0].1.Listed?);
      ValueFits(raw[0].1, limit, left);
      FitsAppend(ps, PiecesOf(raw[1..]), limit, left);
      LengthAppend(ps, PiecesOf(raw[1..]));
      UnchangedIffFits(raw[1..], limit, first.left);
    }
  }

  // ---------------------------------------------------------------------
  // The preview of a duplicate row
  // ---------------------------------------------------------------------

  /** The number of characters kept of each of its four strings. */
  function DuplicateWidth(limit: nat, total: nat): nat {
    var width := Min(limit, total / 4);
    if width < 1 then 1 else width
  }

  function Left(text: Text, width: nat): Text {
    text[..Min(width, |text|)]
  }

  /** The strings are within the value limit, and together within the total just
      when the total allows one character for each of four long ones. */
  lemma DuplicatePreview(a: Text, b: Text, c: Text, d: Text, limit: nat, total: nat)
    requires limit > 0 && total > 0
    ensures var w := DuplicateWidth(limit, total);
            && |Left(a, w)| <= limit && |Left(b, w)| <= limit && |Left(c, w)| <= limit && |Left(d, w)| <= limit
            && (total >= 4 ==> |Left(a, w)| + |Left(b, w)| + |Left(c, w)| + |Left(d, w)| <= total)
            && (a != [] && b != [] && c != [] && d != [] && total < 4 ==>
                  |Left(a, w)| + |Left(b, w)| + |Left(c, w)| + |Left(d, w)| > total)
  {
  }
}
