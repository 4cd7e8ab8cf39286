/** The counters taken before the write are exactly what the write changes. */
module ApplyCounters {
  import opened Common
  import opened MapFolds
  import opened SnapshotModel
  import opened StockTables

  datatype CounterKind = Created | Updated | Zeroed

  function ClassifyStockChange(previous: Option<nat>, explicit: Option<nat>, warehouseInReport: bool)
    : Option<CounterKind>
  {
    if explicit.Some? then
      if previous.None? then Some(Created)
      else if previous.value != explicit.value then Some(Updated)
      else None
    else if warehouseInReport && previous.Some? && previous.value != 0 then Some(Zeroed)
    else None
  }

  function Lookup<K, V>(m: map<K, V>, k: K): Option<V> {
    if k in m then Some(m[k]) else None
  }

  /** The pairs of one class; `quantities` are the reported ones. */
  function OfKind(b: Balances, quantities: Balances, affected: set<nat>, kind: CounterKind): set<(nat, nat)> {
    set k | k in b.Keys + quantities.Keys
            && ClassifyStockChange(Lookup(b, k), Lookup(quantities, k), k.0 in affected) == Some(kind)
  }

  /** The balances after the write of `quantities` and the zeroing. */
  function Final(b: Balances, quantities: Balances, affected: set<nat>): Balances {
    ZeroMissing(b + quantities, affected, quantities.Keys)
  }

  // ---------------------------------------------------------------------
  // The classes are the changes
  // ---------------------------------------------------------------------

  /** The pairs in both tables with different quantities. */
  function Changed(before: Balances, after: Balances): set<(nat, nat)> {
    set k | k in before && k in after && after[k] != before[k]
  }

  lemma ChangedAt(b: Balances, quantities: Balances, affected: set<nat>, k: (nat, nat))
    ensures k in Changed(b, Final(b, quantities, affected)) <==>
            k in OfKind(b, quantities, affected, Updated) || k in OfKind(b, quantities, affected, Zeroed)
    ensures !(k in OfKind(b, quantities, affected, Updated) && k in OfKind(b, quantities, affected, Zeroed))
  {
  }

  lemma CreatedAreNew(b: Balances, quantities: Balances, affected: set<nat>)
    ensures var after := Final(b, quantities, affected);
            b.Keys <= after.Keys && OfKind(b, quantities, affected, Created) == after.Keys - b.Keys
  {
    var after, created := Final(b, quantities, affected), OfKind(b, quantities, affected, Created);
    forall k: (nat, nat)
      ensures k in created <==> k in after && k !in b
      ensures k in b ==> k in after
    {
    }
    assert created == after.Keys - b.Keys;
  }

  /** The classes are what the balance table really changes: created pairs are its
      new keys, updated and zeroed pairs the old keys whose quantity differs. */
  lemma ClassesAreChanges(b: Balances, quantities: Balances, affected: set<nat>)
    ensures var after := Final(b, quantities, affected);
            var updated := OfKind(b, quantities, affected, Updated);
            var zeroed := OfKind(b, quantities, affected, Zeroed);
            && b.Keys <= after.Keys
            && OfKind(b, quantities, affected, Created) == after.Keys - b.Keys
            && updated !! zeroed && updated + zeroed == Changed(b, after)
  {
    CreatedAreNew(b, quantities, affected);
    var changed := Changed(b, Final(b, quantities, affected));
    var updated, zeroed := OfKind(b, quantities, affected, Updated), OfKind(b, quantities, affected, Zeroed);
    forall k
      ensures k in changed <==> k in updated || k in zeroed
      ensures !(k in updated && k in zeroed)
    {
      ChangedAt(b, quantities, affected, k);
    }
    assert updated + zeroed == changed;
  }

  // ---------------------------------------------------------------------
  // Counting lines is counting pairs
  // ---------------------------------------------------------------------

  function PairsOf(lines: Lines<(nat, nat), nat>, some: set<nat>): set<(nat, nat)>
    requires some <= lines.Keys
  {
    set l | l in some :: lines[l].0
  }

  lemma LinesAsPairs(lines: Lines<(nat, nat), nat>, some: set<nat>)
    requires some <= lines.Keys
    requires forall l, m :: l in some && m in some && lines[l].0 == lines[m].0 ==> l == m
    ensures |some| == |PairsOf(lines, some)|
  {
    var sub := map l | l in some :: lines[l];
    UniqueKeysCount(sub);
    assert sub.Keys == some;
    assert KeysOf(sub) == PairsOf(lines, some);
  }

  /** What an insertion that went through wrote. */
  function Written(lines: Lines<(nat, nat), nat>, order: seq<nat>): Balances {
    PutInOrder(map[], lines, order)
  }

  lemma PositionOf(order: seq<nat>, l: nat) returns (i: nat)
    requires l in order
    ensures i < |order| && order[i] == l
  {
    i :| 0 <= i < |order| && order[i] == l;
  }

  /** A line that does not find its quantity is the last one processed of its pair. */
  lemma ChangingLineIsLast(b: Balances, lines: Lines<(nat, nat), nat>, order: seq<nat>, l: nat)
    requires IsOrder(order, lines.Keys) && OnlyLastChanges(b, lines, order)
    requires l in lines && !LineUnchanged(b, lines, l)
    ensures lines[l].0 in Written(lines, order) && Written(lines, order)[lines[l].0] == lines[l].1
    ensures forall m :: m in lines && lines[m].0 == lines[l].0 && !LineUnchanged(b, lines, m) ==> m == l
  {
    var i := PositionOf(order, l);
    assert LastProcessed(lines, order, i);
    LastIsKept<(nat, nat), nat>(map[], lines, order, i);
    forall m | m in lines && lines[m].0 == lines[l].0 && !LineUnchanged(b, lines, m)
      ensures m == l
    {
      var j := PositionOf(order, m);
      assert LastProcessed(lines, order, j);
    }
  }

  lemma WrittenFrom(lines: Lines<(nat, nat), nat>, order: seq<nat>, k: (nat, nat)) returns (l: nat)
    requires k in Written(lines, order)
    ensures l in lines && lines[l] == (k, Written(lines, order)[k])
  {
    PutInOrderKeys(lines, order);
    var i := LastExists(lines, order, k);
    LastIsKept<(nat, nat), nat>(map[], lines, order, i);
    l := order[i];
  }

  lemma CreatedAt(b: Balances, lines: Lines<(nat, nat), nat>, order: seq<nat>, affected: set<nat>, k: (nat, nat))
    requires IsOrder(order, lines.Keys) && OnlyLastChanges(b, lines, order)
    ensures k in OfKind(b, Written(lines, order), affected, Created) <==> k in PairsOf(lines, CreatedLines(b, lines))
  {
    if k in OfKind(b, Written(lines, order), affected, Created) {
      var l := WrittenFrom(lines, order, k);
      assert l in CreatedLines(b, lines);
    }
    if k in PairsOf(lines, CreatedLines(b, lines)) {
      var l :| l in CreatedLines(b, lines) && lines[l].0 == k;
      ChangingLineIsLast(b, lines, order, l);
    }
  }

  lemma UpdatedAt(b: Balances, lines: Lines<(nat, nat), nat>, order: seq<nat>, affected: set<nat>, k: (nat, nat))
    requires IsOrder(order, lines.Keys) && OnlyLastChanges(b, lines, order)
    ensures k in OfKind(b, Written(lines, order), affected, Updated) <==> k in PairsOf(lines, UpdatedLines(b, lines))
  {
    if k in OfKind(b, Written(lines, order), affected, Updated) {
      var l := WrittenFrom(lines, order, k);
      assert l in UpdatedLines(b, lines);
    }
    if k in PairsOf(lines, UpdatedLines(b, lines)) {
      var l :| l in UpdatedLines(b, lines) && lines[l].0 == k;
      ChangingLineIsLast(b, lines, order, l);
    }
  }

  lemma CreatedClassify(b: Balances, lines: Lines<(nat, nat), nat>, order: seq<nat>, affected: set<nat>)
    requires IsOrder(order, lines.Keys) && OnlyLastChanges(b, lines, order)
    ensures |CreatedLines(b, lines)| == |OfKind(b, Written(lines, order), affected, Created)|
  {
    var some := CreatedLines(b, lines);
    forall l, m | l in some && m in some && lines[l].0 == lines[m].0
      ensures l == m
    {
      ChangingLineIsLast(b, lines, order, l);
    }
    LinesAsPairs(lines, some);
    var kind, pairs := OfKind(b, Written(lines, order), affected, Created), PairsOf(lines, some);
    forall k
      ensures k in kind <==> k in pairs
    {
      CreatedAt(b, lines, order, affected, k);
    }
    assert kind == pairs;
  }

  lemma UpdatedClassify(b: Balances, lines: Lines<(nat, nat), nat>, order: seq<nat>, affected: set<nat>)
    requires IsOrder(order, lines.Keys) && OnlyLastChanges(b, lines, order)
    ensures |UpdatedLines(b, lines)| == |OfKind(b, Written(lines, order), affected, Updated)|
  {
    var some := UpdatedLines(b, lines);
    forall l, m | l in some && m in some && lines[l].0 == lines[m].0
      ensures l == m
    {
      ChangingLineIsLast(b, lines, order, l);
    }
    LinesAsPairs(lines, some);
    var kind, pairs := OfKind(b, Written(lines, order), affected, Updated), PairsOf(lines, some);
    forall k
      ensures k in kind <==> k in pairs
    {
      UpdatedAt(b, lines, order, affected, k);
    }
    assert kind == pairs;
  }

  lemma ZeroedAre(b: Balances, quantities: Balances, lines: Lines<(nat, nat), nat>, affected: set<nat>)
    requires quantities.Keys == KeysOf(lines)
    ensures OfKind(b, quantities, affected, Zeroed) == ZeroedPairs(b, lines, affected)
  {
    forall k: (nat, nat)
      ensures k in OfKind(b, quantities, affected, Zeroed) <==> k in ZeroedPairs(b, lines, affected)
    {
      assert k in quantities <==> k in KeysOf(lines);
    }
  }

  lemma ZeroedClassify(b: Balances, lines: Lines<(nat, nat), nat>, order: seq<nat>, affected: set<nat>)
    requires IsOrder(order, lines.Keys)
    ensures OfKind(b, Written(lines, order), affected, Zeroed) == ZeroedPairs(b, lines, affected)
  {
    OrderExact(lines, order);
    ZeroedAre(b, Written(lines, order), lines, affected);
  }

  /** Whenever the insertion goes through, in whatever order, the counters taken
      before it are the sums of the classification over all pairs. */
  lemma CountersClassify(b: Balances, lines: Lines<(nat, nat), nat>, order: seq<nat>, affected: set<nat>)
    requires IsOrder(order, lines.Keys) && InsertExplicit(b, lines, order).Inserted?
    ensures CalculateCounters(b, lines, affected) == Counters(
              |OfKind(b, Written(lines, order), affected, Created)|,
              |OfKind(b, Written(lines, order), affected, Updated)|,
              |OfKind(b, Written(lines, order), affected, Zeroed)|)
  {
    InsertionExact(b, lines, order);
    CreatedClassify(b, lines, order, affected);
    UpdatedClassify(b, lines, order, affected);
    ZeroedClassify(b, lines, order, affected);
  }

  function SameLines(b: Balances, lines: Lines<(nat, nat), nat>): set<nat> {
    set l | l in lines && lines[l].0 in b && b[lines[l].0] == lines[l].1
  }

  lemma ThreeWays(all: set<nat>, a: set<nat>, b: set<nat>, c: set<nat>)
    requires a !! b && (a + b) !! c && all == a + b + c
    ensures |a| + |b| + |c| == |all|
  {
    assert |a + b| == |a| + |b|;
  }

  /** Every line is counted as created or updated, or finds its own quantity. */
  lemma LinesPartition(b: Balances, lines: Lines<(nat, nat), nat>)
    ensures |CreatedLines(b, lines)| + |UpdatedLines(b, lines)| + |SameLines(b, lines)| == |lines|
  {
    var created, updated, same := CreatedLines(b, lines), UpdatedLines(b, lines), SameLines(b, lines);
    forall l
      ensures l in lines.Keys <==> l in created || l in updated || l in same
      ensures !(l in created && l in updated) && !((l in created || l in updated) && l in same)
    {
    }
    assert lines.Keys == created + updated + same;
    ThreeWays(lines.Keys, created, updated, same);
  }

  /** Created is the number of new pairs, updated plus zeroed the number of old
      pairs whose quantity changed. */
  ghost predicate ExactCounters(before: Balances, after: Balances, c: Counters) {
    && before.Keys <= after.Keys
    && c.created == |after.Keys - before.Keys|
    && c.updated + c.zeroed == |Changed(before, after)|
  }

  lemma CountersOf(b: Balances, lines: Lines<(nat, nat), nat>, order: seq<nat>, affected: set<nat>)
    requires IsOrder(order, lines.Keys) && InsertExplicit(b, lines, order).Inserted?
    ensures ExactCounters(b, Final(b, Written(lines, order), affected), CalculateCounters(b, lines, affected))
  {
    var quantities := Written(lines, order);
    CountersClassify(b, lines, order, affected);
    ClassesAreChanges(b, quantities, affected);
    var updated, zeroed := OfKind(b, quantities, affected, Updated), OfKind(b, quantities, affected, Zeroed);
    assert |updated + zeroed| == |updated| + |zeroed|;
  }

  lemma FinalBalances(b: Balances, lines: Lines<(nat, nat), nat>, order: seq<nat>, affected: set<nat>)
    requires IsOrder(order, lines.Keys) && InsertExplicit(b, lines, order).Inserted?
    ensures ZeroMissing(InsertExplicit(b, lines, order).balances, affected, KeysOf(lines))
         == Final(b, Written(lines, order), affected)
  {
    InsertionWrites(b, lines, order);
    PutInOrderAdds(b, lines, order);
    OrderExact(lines, order);
  }

  lemma SameSize<T, U>(a: map<nat, T>, b: map<nat, U>)
    requires a.Keys == b.Keys
    ensures |a| == |b|
  {
    assert |a| == |a.Keys| && |b| == |b.Keys|;
  }

  /** What the statements on the balances compute when they go through. */
  lemma WriteShape(w: Catalog, p: Catalog, b: Balances, st: Staging, order: seq<nat>)
    requires UniqueIds(w) && UniqueIds(p) && Codes(st) <= w.Keys && Skus(st) <= p.Keys && IsOrder(order, st.Keys)
    requires WriteStock(w, p, b, st, order).Applied?
    ensures var lines, affected := ExplicitPairs(st, w, p), AffectedWarehouses(st, w);
            && lines.Keys == st.Keys && InsertExplicit(b, lines, order).Inserted?
            && WriteStock(w, p, b, st, order) ==
               Applied(Tables(w, p, Final(b, Written(lines, order), affected)), CalculateCounters(b, lines, affected))
  {
    JoinedLines(w, p, st);
    FinalBalances(b, ExplicitPairs(st, w, p), order, AffectedWarehouses(st, w));
  }

  lemma WriteCounts(w: Catalog, p: Catalog, b: Balances, st: Staging, order: seq<nat>)
    requires UniqueIds(w) && UniqueIds(p) && Codes(st) <= w.Keys && Skus(st) <= p.Keys && IsOrder(order, st.Keys)
    requires WriteStock(w, p, b, st, order).Applied?
    ensures var done := WriteStock(w, p, b, st, order);
            && ExactCounters(b, done.tables.balances, done.counters)
            && done.counters.created + done.counters.updated + |SameLines(b, ExplicitPairs(st, w, p))| == |st|
  {
    var lines := ExplicitPairs(st, w, p);
    WriteShape(w, p, b, st, order);
    CountersOf(b, lines, order, AffectedWarehouses(st, w));
    LinesPartition(b, lines);
    SameSize(lines, st);
  }

  /** The counters of an apply that goes through are the difference it makes, and
      created, updated and unchanged lines add up to its rows. */
  lemma CountersExact(t: Tables, st: Staging, choices: Choices)
    requires ValidTables(t) && CanChoose(t, st, choices) && ApplyStock(t, st, choices).Applied?
    ensures var done := ApplyStock(t, st, choices);
            var w, p := UpsertWarehouses(t, st, choices.warehouses), UpsertProducts(t, st, choices.products);
            && ExactCounters(t.balances, done.tables.balances, done.counters)
            && done.counters.created + done.counters.updated + |SameLines(t.balances, ExplicitPairs(st, w, p))| == |st|
  {
    UpsertedCatalogs(t, st, choices);
    WriteCounts(UpsertWarehouses(t, st, choices.warehouses), UpsertProducts(t, st, choices.products),
                t.balances, st, choices.order);
  }

  // ---------------------------------------------------------------------
  // Applying the same report again
  // ---------------------------------------------------------------------

  lemma UpsertAgain(c: Catalog, source: map<Text, Text>, newIds: map<Text, nat>)
    requires source.Keys - c.Keys <= newIds.Keys
    ensures var d := Upsert(c, source, newIds);
            source.Keys <= d.Keys && Upsert(d, source, map[]) == d
  {
  }

  /** Every line finds its pair with its own quantity. */
  ghost predicate AllPresent(b: Balances, lines: Lines<(nat, nat), nat>) {
    forall l :: l in lines ==> LineUnchanged(b, lines, l)
  }

  /** The unreported pairs of reported warehouses are 0. */
  ghost predicate NothingMissing(b: Balances, lines: Lines<(nat, nat), nat>, affected: set<nat>) {
    forall k :: k in b && k.0 in affected && k !in KeysOf(lines) ==> b[k] == 0
  }

  lemma {:induction false} InsertNothing(b: Balances, lines: Lines<(nat, nat), nat>, order: seq<nat>)
    requires AllPresent(b, lines)
    ensures InsertExplicit(b, lines, order) == Inserted(b, {})
  {
    if order != [] {
      InsertNothing(b, lines, order[..|order| - 1]);
    }
  }

  lemma UniqueQuantity(lines: Lines<(nat, nat), nat>, order: seq<nat>, l: nat)
    requires UniqueKeys(lines) && IsOrder(order, lines.Keys) && l in lines
    ensures lines[l].0 in Written(lines, order) && Written(lines, order)[lines[l].0] == lines[l].1
  {
    var i := PositionOf(order, l);
    assert LastProcessed(lines, order, i);
    LastIsKept<(nat, nat), nat>(map[], lines, order, i);
  }

  lemma FinalPresent(b: Balances, lines: Lines<(nat, nat), nat>, order: seq<nat>, affected: set<nat>)
    requires UniqueKeys(lines) && IsOrder(order, lines.Keys)
    ensures AllPresent(Final(b, Written(lines, order), affected), lines)
    ensures NothingMissing(Final(b, Written(lines, order), affected), lines, affected)
  {
    OrderExact(lines, order);
    forall l | l in lines
      ensures LineUnchanged(Final(b, Written(lines, order), affected), lines, l)
    {
      UniqueQuantity(lines, order, l);
    }
  }

  lemma NothingToCount(after: Balances, lines: Lines<(nat, nat), nat>, affected: set<nat>)
    requires AllPresent(after, lines)
    requires NothingMissing(after, lines, affected)
    ensures CalculateCounters(after, lines, affected) == Counters(0, 0, 0)
    ensures ZeroMissing(after, affected, KeysOf(lines)) == after
  {
    assert CreatedLines(after, lines) == {};
    assert UpdatedLines(after, lines) == {};
    assert ZeroedPairs(after, lines, affected) == {};
  }

  lemma SecondPass(t: Tables, st: Staging, again: Choices)
    requires CanChoose(t, st, again)
    requires UpsertWarehouses(t, st, again.warehouses) == t.warehouses
    requires UpsertProducts(t, st, again.products) == t.products
    requires var lines := ExplicitPairs(st, t.warehouses, t.products);
             var affected := AffectedWarehouses(st, t.warehouses);
             AllPresent(t.balances, lines) && NothingMissing(t.balances, lines, affected)
    ensures ApplyStock(t, st, again) == Applied(t, Counters(0, 0, 0))
  {
    var lines := ExplicitPairs(st, t.warehouses, t.products);
    InsertNothing(t.balances, lines, again.order);
    NothingToCount(t.balances, lines, AffectedWarehouses(st, t.warehouses));
  }

  lemma CatalogsAgain(t: Tables, st: Staging, choices: Choices, b: Balances, order: seq<nat>)
    requires CanChoose(t, st, choices) && IsOrder(order, st.Keys)
    ensures var w, p := UpsertWarehouses(t, st, choices.warehouses), UpsertProducts(t, st, choices.products);
            && CanChoose(Tables(w, p, b), st, Choices(map[], map[], order))
            && UpsertWarehouses(Tables(w, p, b), st, map[]) == w && UpsertProducts(Tables(w, p, b), st, map[]) == p
  {
    UpsertAgain(t.warehouses, DistinctOn(WarehouseLines(st)), choices.warehouses);
    UpsertAgain(t.products, DistinctOn(ProductLines(st)), choices.products);
  }

  /** The same rows applied again, in any order, change nothing and count nothing. */
  lemma ApplyAgain(t: Tables, st: Staging, choices: Choices, order: seq<nat>)
    requires ValidTables(t) && CanChoose(t, st, choices) && UniquePairs(st) && IsOrder(order, st.Keys)
    ensures var done, again := ApplyStock(t, st, choices), Choices(map[], map[], order);
            && done.Applied?
            && CanChoose(done.tables, st, again)
            && ApplyStock(done.tables, st, again) == Applied(done.tables, Counters(0, 0, 0))
  {
    var w, p := UpsertWarehouses(t, st, choices.warehouses), UpsertProducts(t, st, choices.products);
    var lines, affected := ExplicitPairs(st, w, p), AffectedWarehouses(st, w);
    UniqueApplies(t, st, choices);
    UpsertedCatalogs(t, st, choices);
    JoinedLines(w, p, st);
    WriteShape(w, p, t.balances, st, choices.order);
    CatalogsAgain(t, st, choices, Final(t.balances, Written(lines, choices.order), affected), order);
    FinalPresent(t.balances, lines, choices.order, affected);
    SecondPass(ApplyStock(t, st, choices).tables, st, Choices(map[], map[], order));
  }
}
