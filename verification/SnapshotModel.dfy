/** What applying a report means: the reported rows are the whole stock of the
    reported warehouses, written row by row in line order. */
module SnapshotModel {
  import opened Common
  import opened MapFolds
  import opened CsvValidation

  /** Names by code, and quantities by (warehouse code, sku). */
  datatype Stock = Stock(
    warehouses: map<Text, Text>,
    products: map<Text, Text>,
    balances: map<(Text, Text), nat>)

  /** The staged rows of one report by line number. */
  type Staging = map<nat, ValidatedRow>

  function Pair(r: ValidatedRow): (Text, Text) {
    (r.warehouseCode, r.sku)
  }

  function WarehouseLines(st: Staging): Lines<Text, Text> {
    map l | l in st :: (st[l].warehouseCode, st[l].warehouseName)
  }

  function ProductLines(st: Staging): Lines<Text, Text> {
    map l | l in st :: (st[l].sku, st[l].productName)
  }

  function PairLines(st: Staging): Lines<(Text, Text), nat> {
    map l | l in st :: (Pair(st[l]), st[l].quantity)
  }

  function Codes(st: Staging): set<Text> {
    KeysOf(WarehouseLines(st))
  }

  function Skus(st: Staging): set<Text> {
    KeysOf(ProductLines(st))
  }

  function PutRow(v: Stock, r: ValidatedRow): Stock {
    Stock(v.warehouses[r.warehouseCode := r.warehouseName],
          v.products[r.sku := r.productName],
          v.balances[Pair(r) := r.quantity])
  }

  /** The rows below line `n`, one by one in line order. */
  function PutRows(v: Stock, st: Staging, n: nat): Stock {
    if n == 0 then v
    else
      var before := PutRows(v, st, n - 1);
      if n - 1 in st then PutRow(before, st[n - 1]) else before
  }

  function ZeroWarehouses(balances: map<(Text, Text), nat>, codes: set<Text>): map<(Text, Text), nat> {
    map k | k in balances :: if k.0 in codes then 0 else balances[k]
  }

  ghost function Snapshot(v: Stock, st: Staging): Stock {
    PutRows(v.(balances := ZeroWarehouses(v.balances, Codes(st))), st, Bound(st))
  }

  // ---------------------------------------------------------------------
  // The same table by table
  // ---------------------------------------------------------------------

  ghost predicate UniquePairs(st: Staging) {
    UniqueKeys(PairLines(st))
  }

  lemma {:induction false} PutRowsByTable(v: Stock, st: Staging, n: nat)
    ensures PutRows(v, st, n) == Stock(PutAll(v.warehouses, WarehouseLines(st), n),
                                       PutAll(v.products, ProductLines(st), n),
                                       PutAll(v.balances, PairLines(st), n))
  {
    if n > 0 {
      PutRowsByTable(v, st, n - 1);
    }
  }

  /** The tables after a snapshot: each key takes the value of its last line. */
  lemma SnapshotByTable(v: Stock, st: Staging)
    ensures Snapshot(v, st) == Stock(
              v.warehouses + DistinctOn(WarehouseLines(st)),
              v.products + DistinctOn(ProductLines(st)),
              ZeroWarehouses(v.balances, Codes(st)) + DistinctOn(PairLines(st)))
  {
    var n := Bound(st);
    var zeroed := ZeroWarehouses(v.balances, Codes(st));
    PutRowsByTable(v.(balances := zeroed), st, n);
    DistinctOnIsPutAll(v.warehouses, WarehouseLines(st), n);
    DistinctOnIsPutAll(v.products, ProductLines(st), n);
    DistinctOnIsPutAll(zeroed, PairLines(st), n);
  }

  lemma PairCodes(st: Staging)
    ensures forall k :: k in KeysOf(PairLines(st)) ==> k.0 in Codes(st)
  {
    forall k | k in KeysOf(PairLines(st))
      ensures k.0 in Codes(st)
    {
      var l :| l in PairLines(st) && PairLines(st)[l].0 == k;
      assert WarehouseLines(st)[l].0 == k.0;
    }
  }

  /** A written key has the value of its highest line; other keys keep theirs. */
  lemma Written<K, V>(b: map<K, V>, lines: Lines<K, V>)
    ensures (b + DistinctOn(lines)).Keys == b.Keys + KeysOf(lines)
    ensures forall k :: k in b && k !in KeysOf(lines) ==> (b + DistinctOn(lines))[k] == b[k]
  {
  }

  lemma HighestLine<K, V>(b: map<K, V>, lines: Lines<K, V>, l: nat)
    requires l in lines && forall m :: m in lines && m > l ==> lines[m].0 != lines[l].0
    ensures lines[l].0 in b + DistinctOn(lines) && (b + DistinctOn(lines))[lines[l].0] == lines[l].1
  {
    assert lines[l].0 in KeysOf(lines);
  }

  ghost predicate LastOfWarehouse(st: Staging, l: nat) {
    l in st && forall m :: m in st && m > l ==> st[m].warehouseCode != st[l].warehouseCode
  }

  ghost predicate LastOfSku(st: Staging, l: nat) {
    l in st && forall m :: m in st && m > l ==> st[m].sku != st[l].sku
  }

  /** A reported pair gets the reported quantity. */
  lemma ReportedPair(v: Stock, st: Staging, l: nat)
    requires UniquePairs(st) && l in st
    ensures Pair(st[l]) in Snapshot(v, st).balances
    ensures Snapshot(v, st).balances[Pair(st[l])] == st[l].quantity
  {
    SnapshotByTable(v, st);
    HighestLine(ZeroWarehouses(v.balances, Codes(st)), PairLines(st), l);
  }

  /** The other pairs of reported warehouses become 0, all others keep their
      quantity; no pair disappears and none appears unreported. */
  lemma UnreportedPair(v: Stock, st: Staging, k: (Text, Text))
    ensures var after := Snapshot(v, st).balances;
            && (k in after <==> k in v.balances || k in KeysOf(PairLines(st)))
            && (k in v.balances && k !in KeysOf(PairLines(st)) ==>
                  after[k] == if k.0 in Codes(st) then 0 else v.balances[k])
  {
    SnapshotByTable(v, st);
    var zeroed := ZeroWarehouses(v.balances, Codes(st));
    Written(zeroed, PairLines(st));
    assert k in zeroed <==> k in v.balances;
  }

  /** A warehouse is named by its highest line; unreported names are kept. */
  lemma SnapshotWarehouseNames(v: Stock, st: Staging, l: nat)
    ensures var after := Snapshot(v, st).warehouses;
            && after.Keys == v.warehouses.Keys + Codes(st)
            && (LastOfWarehouse(st, l) ==> st[l].warehouseCode in after
                                           && after[st[l].warehouseCode] == st[l].warehouseName)
            && (forall c :: c in v.warehouses && c !in Codes(st) ==> after[c] == v.warehouses[c])
  {
    SnapshotByTable(v, st);
    var lines := WarehouseLines(st);
    Written(v.warehouses, lines);
    if LastOfWarehouse(st, l) {
      assert l in lines;
      HighestLine(v.warehouses, lines, l);
    }
  }

  /** A product is named by its highest line; unreported names are kept. */
  lemma SnapshotProductNames(v: Stock, st: Staging, l: nat)
    ensures var after := Snapshot(v, st).products;
            && after.Keys == v.products.Keys + Skus(st)
            && (LastOfSku(st, l) ==> st[l].sku in after && after[st[l].sku] == st[l].productName)
            && (forall s :: s in v.products && s !in Skus(st) ==> after[s] == v.products[s])
  {
    SnapshotByTable(v, st);
    var lines := ProductLines(st);
    Written(v.products, lines);
    if LastOfSku(st, l) {
      assert l in lines;
      HighestLine(v.products, lines, l);
    }
  }

  lemma ZeroAndWriteTwice(balances: map<(Text, Text), nat>, codes: set<Text>, written: map<(Text, Text), nat>)
    ensures var once := ZeroWarehouses(balances, codes) + written;
            ZeroWarehouses(once, codes) + written == once
  {
  }

  /** Applying the same rows twice is applying them once. */
  lemma Idempotent(v: Stock, st: Staging)
    ensures Snapshot(Snapshot(v, st), st) == Snapshot(v, st)
  {
    SnapshotByTable(v, st);
    SnapshotByTable(Snapshot(v, st), st);
    ZeroAndWriteTwice(v.balances, Codes(st), DistinctOn(PairLines(st)));
    assert forall m: map<Text, Text>, w: map<Text, Text> {:trigger m + w} :: (m + w) + w == m + w;
  }

  /** Snapshots of disjoint sets of warehouses commute on the balances. */
  lemma DisjointWarehousesCommute(v: Stock, a: Staging, b: Staging)
    requires Codes(a) !! Codes(b)
    ensures Snapshot(Snapshot(v, a), b).balances == Snapshot(Snapshot(v, b), a).balances
  {
    SnapshotByTable(v, a);
    SnapshotByTable(v, b);
    SnapshotByTable(Snapshot(v, a), b);
    SnapshotByTable(Snapshot(v, b), a);
    PairCodes(a);
    PairCodes(b);
    WritesCommute(v.balances, Codes(a), Codes(b), DistinctOn(PairLines(a)), DistinctOn(PairLines(b)));
  }

  lemma WritesCommute(balances: map<(Text, Text), nat>, ca: set<Text>, cb: set<Text>,
                      wa: map<(Text, Text), nat>, wb: map<(Text, Text), nat>)
    requires ca !! cb
    requires (forall k :: k in wa ==> k.0 in ca) && (forall k :: k in wb ==> k.0 in cb)
    ensures ZeroWarehouses(ZeroWarehouses(balances, ca) + wa, cb) + wb
         == ZeroWarehouses(ZeroWarehouses(balances, cb) + wb, ca) + wa
  {
    ZeroElsewhere(ZeroWarehouses(balances, ca), wa, cb);
    ZeroElsewhere(ZeroWarehouses(balances, cb), wb, ca);
    ZeroesCommute(balances, ca, cb);
    AddsCommute(ZeroWarehouses(ZeroWarehouses(balances, ca), cb), wa, wb);
  }

  lemma AddsCommute<K, V>(m: map<K, V>, a: map<K, V>, b: map<K, V>)
    requires a.Keys !! b.Keys
    ensures m + a + b == m + b + a
  {
  }

  lemma ZeroesCommute(balances: map<(Text, Text), nat>, a: set<Text>, b: set<Text>)
    ensures ZeroWarehouses(ZeroWarehouses(balances, a), b) == ZeroWarehouses(ZeroWarehouses(balances, b), a)
  {
  }

  /** Zeroing other warehouses leaves what was written alone. */
  lemma ZeroElsewhere(balances: map<(Text, Text), nat>, written: map<(Text, Text), nat>, codes: set<Text>)
    requires forall k :: k in written ==> k.0 !in codes
    ensures ZeroWarehouses(balances + written, codes) == ZeroWarehouses(balances, codes) + written
  {
  }

  /** ... but not on product names, which the later report decides. */
  lemma ProductNamesDoNotCommute(v: Stock, a: Staging, b: Staging, l: nat, m: nat)
    requires LastOfSku(a, l) && LastOfSku(b, m) && a[l].sku == b[m].sku && a[l].productName != b[m].productName
    ensures Snapshot(Snapshot(v, a), b).products != Snapshot(Snapshot(v, b), a).products
  {
    SnapshotProductNames(Snapshot(v, a), b, m);
    SnapshotProductNames(Snapshot(v, b), a, l);
  }
}
