/** The statements of the apply transaction on tables keyed by identity ids. */
module StockTables {
  import opened Common
  import opened MapFolds
  import opened SnapshotModel

  /** A catalog row; the UNIQUE code is the key it is stored under. */
  datatype Entry = Entry(id: nat, name: Text)

  type Catalog = map<Text, Entry>

  type Balances = map<(nat, nat), nat>

  datatype Tables = Tables(warehouses: Catalog, products: Catalog, balances: Balances)

  ghost predicate UniqueIds(c: Catalog) {
    forall a, b :: a in c && b in c && c[a].id == c[b].id ==> a == b
  }

  ghost predicate HasId(c: Catalog, id: nat) {
    exists a :: a in c && c[a].id == id
  }

  /** Primary and foreign keys. */
  ghost predicate ValidTables(t: Tables) {
    && UniqueIds(t.warehouses) && UniqueIds(t.products)
    && forall k :: k in t.balances ==> HasId(t.warehouses, k.0) && HasId(t.products, k.1)
  }

  // ---------------------------------------------------------------------
  // What the tables say, by code
  // ---------------------------------------------------------------------

  function Names(c: Catalog): map<Text, Text> {
    map a | a in c :: c[a].name
  }

  function CodePairs(w: Catalog, p: Catalog): set<(Text, Text)> {
    set a, s | a in w && s in p :: (a, s)
  }

  function Coded(w: Catalog, p: Catalog, b: Balances): map<(Text, Text), nat> {
    map k | k in CodePairs(w, p) && (w[k.0].id, p[k.1].id) in b :: b[(w[k.0].id, p[k.1].id)]
  }

  function View(t: Tables): Stock {
    Stock(Names(t.warehouses), Names(t.products), Coded(t.warehouses, t.products, t.balances))
  }

  // ---------------------------------------------------------------------
  // The statements
  // ---------------------------------------------------------------------

  /** Identity values for the codes of `source` that `c` does not have. */
  ghost predicate FreshIds(c: Catalog, source: set<Text>, newIds: map<Text, nat>) {
    && newIds.Keys == source - c.Keys
    && (forall a, b :: a in newIds && b in newIds && newIds[a] == newIds[b] ==> a == b)
    && (forall a :: a in newIds ==> !HasId(c, newIds[a]))
  }

  /** INSERT ... ON CONFLICT (code) DO UPDATE SET name WHERE name IS DISTINCT. */
  function Upsert(c: Catalog, source: map<Text, Text>, newIds: map<Text, nat>): Catalog
    requires source.Keys - c.Keys <= newIds.Keys
  {
    map a | a in c.Keys + source.Keys ::
      if a !in c then Entry(newIds[a], source[a])
      else if a in source && c[a].name != source[a] then Entry(c[a].id, source[a])
      else c[a]
  }

  /** The staged rows joined with both catalogs. */
  function ExplicitPairs(st: Staging, w: Catalog, p: Catalog): Lines<(nat, nat), nat> {
    map l | l in st && st[l].warehouseCode in w && st[l].sku in p ::
      ((w[st[l].warehouseCode].id, p[st[l].sku].id), st[l].quantity)
  }

  function AffectedWarehouses(st: Staging, w: Catalog): set<nat> {
    set a | a in Codes(st) && a in w :: w[a].id
  }

  datatype Insertion = Inserted(balances: Balances, touched: set<(nat, nat)>) | CannotAffectRowTwice

  /** INSERT ... ON CONFLICT DO UPDATE WHERE quantity IS DISTINCT, row by row in some
      order. One statement may not insert or update the same row twice. */
  function InsertExplicit(b: Balances, lines: Lines<(nat, nat), nat>, order: seq<nat>): Insertion {
    if order == [] then Inserted(b, {})
    else InsertLine(InsertExplicit(b, lines, order[..|order| - 1]), lines, order[|order| - 1])
  }

  function InsertLine(before: Insertion, lines: Lines<(nat, nat), nat>, l: nat): Insertion {
    match before
    case CannotAffectRowTwice => CannotAffectRowTwice
    case Inserted(now, touched) =>
      if l !in lines then before
      else
        var (k, q) := lines[l];
        if k in touched then CannotAffectRowTwice
        else if k in now && now[k] == q then before
        else Inserted(now[k := q], touched + {k})
  }

  /** UPDATE ... SET quantity = 0 for the affected warehouses' other pairs. */
  function ZeroMissing(b: Balances, affected: set<nat>, present: set<(nat, nat)>): Balances {
    map k | k in b :: if k.0 in affected && b[k] != 0 && k !in present then 0 else b[k]
  }

  datatype Counters = Counters(created: nat, updated: nat, zeroed: nat)

  function CreatedLines(b: Balances, lines: Lines<(nat, nat), nat>): set<nat> {
    set l | l in lines && lines[l].0 !in b
  }

  function UpdatedLines(b: Balances, lines: Lines<(nat, nat), nat>): set<nat> {
    set l | l in lines && lines[l].0 in b && b[lines[l].0] != lines[l].1
  }

  function ZeroedPairs(b: Balances, lines: Lines<(nat, nat), nat>, affected: set<nat>): set<(nat, nat)> {
    set k | k in b && k.0 in affected && b[k] != 0 && k !in KeysOf(lines)
  }

  /** The three counts, taken before the balances are written. */
  function CalculateCounters(b: Balances, lines: Lines<(nat, nat), nat>, affected: set<nat>): Counters {
    Counters(|CreatedLines(b, lines)|, |UpdatedLines(b, lines)|, |ZeroedPairs(b, lines, affected)|)
  }

  datatype Applied = Applied(tables: Tables, counters: Counters) | RolledBack

  /** What the database decides by itself: the identity values of both upserts, and
      the order in which the joined rows are inserted. */
  datatype Choices = Choices(warehouses: map<Text, nat>, products: map<Text, nat>, order: seq<nat>)

  ghost predicate CanChoose(t: Tables, st: Staging, choices: Choices) {
    && FreshIds(t.warehouses, Codes(st), choices.warehouses) && FreshIds(t.products, Skus(st), choices.products)
    && IsOrder(choices.order, st.Keys)
  }

  ghost function UpsertWarehouses(t: Tables, st: Staging, newIds: map<Text, nat>): Catalog
    requires FreshIds(t.warehouses, Codes(st), newIds)
  {
    Upsert(t.warehouses, DistinctOn(WarehouseLines(st)), newIds)
  }

  ghost function UpsertProducts(t: Tables, st: Staging, newIds: map<Text, nat>): Catalog
    requires FreshIds(t.products, Skus(st), newIds)
  {
    Upsert(t.products, DistinctOn(ProductLines(st)), newIds)
  }

  /** The statements on the balances, once the catalogs are `w` and `p`. */
  function WriteStock(w: Catalog, p: Catalog, b: Balances, st: Staging, order: seq<nat>): Applied {
    var lines, affected := ExplicitPairs(st, w, p), AffectedWarehouses(st, w);
    match InsertExplicit(b, lines, order)
    case CannotAffectRowTwice => RolledBack
    case Inserted(now, _) =>
      Applied(Tables(w, p, ZeroMissing(now, affected, KeysOf(lines))), CalculateCounters(b, lines, affected))
  }

  /** The stock part of the apply transaction; `RolledBack` when a statement raised. */
  ghost function ApplyStock(t: Tables, st: Staging, choices: Choices): Applied
    requires CanChoose(t, st, choices)
  {
    WriteStock(UpsertWarehouses(t, st, choices.warehouses), UpsertProducts(t, st, choices.products), t.balances, st,
               choices.order)
  }

  // ---------------------------------------------------------------------
  // Catalogs
  // ---------------------------------------------------------------------

  lemma UpsertNames(c: Catalog, source: map<Text, Text>, newIds: map<Text, nat>)
    requires source.Keys - c.Keys <= newIds.Keys
    ensures Names(Upsert(c, source, newIds)) == Names(c) + source
  {
  }

  /** `d` keeps the rows of `c` under their ids, and its new rows have new ids. */
  ghost predicate Extends(c: Catalog, d: Catalog) {
    && (forall a :: a in c ==> a in d && d[a].id == c[a].id)
    && (forall a :: a in d && a !in c ==> !HasId(c, d[a].id))
  }

  lemma UpsertIds(c: Catalog, source: map<Text, Text>, newIds: map<Text, nat>)
    requires UniqueIds(c) && FreshIds(c, source.Keys, newIds)
    ensures var d := Upsert(c, source, newIds);
            && UniqueIds(d)
            && d.Keys == c.Keys + source.Keys
            && Extends(c, d)
  {
    var d := Upsert(c, source, newIds);
    assert forall a :: a in d && a !in c ==> a in newIds && d[a].id == newIds[a];
    assert forall a :: a in c ==> a in d && d[a].id == c[a].id && HasId(c, d[a].id);
  }

  lemma HasIdGrows(c: Catalog, d: Catalog, id: nat)
    requires HasId(c, id) && Extends(c, d)
    ensures HasId(d, id)
  {
    var a :| a in c && c[a].id == id;
    assert a in d;
  }

  // ---------------------------------------------------------------------
  // Balances through the code -> id indirection
  // ---------------------------------------------------------------------

  lemma CodedKey(w: Catalog, p: Catalog, b: Balances, k: (Text, Text))
    ensures k in Coded(w, p, b) <==> k.0 in w && k.1 in p && (w[k.0].id, p[k.1].id) in b
    ensures k in Coded(w, p, b) ==> Coded(w, p, b)[k] == b[(w[k.0].id, p[k.1].id)]
  {
    if k.0 in w && k.1 in p {
      assert (k.0, k.1) in CodePairs(w, p);
    }
  }

  /** New catalog rows have new ids, so no balance refers to them. */
  lemma CodedUnchanged(w: Catalog, p: Catalog, w': Catalog, p': Catalog, b: Balances)
    requires Extends(w, w') && Extends(p, p')
    requires forall k :: k in b ==> HasId(w, k.0) && HasId(p, k.1)
    ensures Coded(w', p', b) == Coded(w, p, b)
  {
    var before, after := Coded(w, p, b), Coded(w', p', b);
    forall k | k in before || k in after
      ensures k in before && k in after && after[k] == before[k]
    {
      CodedUnchangedAt(w, p, w', p', b, k);
    }
  }

  lemma CodedUnchangedAt(w: Catalog, p: Catalog, w': Catalog, p': Catalog, b: Balances, k: (Text, Text))
    requires Extends(w, w') && Extends(p, p')
    requires forall k :: k in b ==> HasId(w, k.0) && HasId(p, k.1)
    ensures k in Coded(w', p', b) <==> k in Coded(w, p, b)
    ensures k in Coded(w, p, b) ==> Coded(w', p', b)[k] == Coded(w, p, b)[k]
  {
    CodedKey(w, p, b, k);
    CodedKey(w', p', b, k);
    if k in Coded(w', p', b) {
      var id := (w'[k.0].id, p'[k.1].id);
      assert HasId(w, id.0) && HasId(p, id.1);
    }
  }

  lemma CodedPut(w: Catalog, p: Catalog, b: Balances, a: Text, s: Text, q: nat)
    requires UniqueIds(w) && UniqueIds(p) && a in w && s in p
    ensures Coded(w, p, b[(w[a].id, p[s].id) := q]) == Coded(w, p, b)[(a, s) := q]
  {
    var id := (w[a].id, p[s].id);
    forall k: (Text, Text)
      ensures k in Coded(w, p, b[id := q]) <==> k in Coded(w, p, b) || k == (a, s)
      ensures k in Coded(w, p, b[id := q]) ==> Coded(w, p, b[id := q])[k] == Coded(w, p, b)[(a, s) := q][k]
    {
      CodedKey(w, p, b, k);
      CodedKey(w, p, b[id := q], k);
    }
  }

  /** `lines` is `coded` with every code replaced by its id. */
  ghost predicate Joined(w: Catalog, p: Catalog, lines: Lines<(nat, nat), nat>, coded: Lines<(Text, Text), nat>) {
    && lines.Keys == coded.Keys
    && forall l :: l in coded ==>
         && coded[l].0.0 in w && coded[l].0.1 in p
         && lines[l] == ((w[coded[l].0.0].id, p[coded[l].0.1].id), coded[l].1)
  }

  /** Once the catalogs know every reported code, the inner joins lose no row. */
  lemma NoRowLost(st: Staging, w: Catalog, p: Catalog)
    requires Codes(st) <= w.Keys && Skus(st) <= p.Keys
    ensures Joined(w, p, ExplicitPairs(st, w, p), PairLines(st))
  {
    forall l | l in st
      ensures st[l].warehouseCode in w && st[l].sku in p
    {
      assert WarehouseLines(st)[l].0 in Codes(st) && ProductLines(st)[l].0 in Skus(st);
    }
  }

  lemma {:induction false} CodedPutInOrder(w: Catalog, p: Catalog, b: Balances, lines: Lines<(nat, nat), nat>,
                                           coded: Lines<(Text, Text), nat>, order: seq<nat>)
    requires UniqueIds(w) && UniqueIds(p) && Joined(w, p, lines, coded)
    ensures Coded(w, p, PutInOrder(b, lines, order)) == PutInOrder(Coded(w, p, b), coded, order)
  {
    if order != [] {
      var init, l := order[..|order| - 1], order[|order| - 1];
      CodedPutInOrder(w, p, b, lines, coded, init);
      if l in coded {
        var (k, q) := coded[l];
        CodedPut(w, p, PutInOrder(b, lines, init), k.0, k.1, q);
      }
    }
  }

  lemma UniqueJoined(w: Catalog, p: Catalog, lines: Lines<(nat, nat), nat>, coded: Lines<(Text, Text), nat>)
    requires UniqueIds(w) && UniqueIds(p) && Joined(w, p, lines, coded) && UniqueKeys(coded)
    ensures UniqueKeys(lines)
  {
  }

  /** Lines with a later line of the same key find their own quantity. */
  ghost predicate OnlyLastChanges(b: Balances, lines: Lines<(nat, nat), nat>, order: seq<nat>) {
    forall i, j ::
      0 <= i < j < |order| && order[i] in lines && order[j] in lines && lines[order[i]].0 == lines[order[j]].0 ==>
        LineUnchanged(b, lines, order[i])
  }

  predicate LineUnchanged(b: Balances, lines: Lines<(nat, nat), nat>, l: nat)
    requires l in lines
  {
    lines[l].0 in b && b[lines[l].0] == lines[l].1
  }

  /** The rows that a successful insertion has touched are those it has changed. */
  ghost predicate TouchedIsChanged(b: Balances, now: Balances, touched: set<(nat, nat)>) {
    && b.Keys <= now.Keys
    && forall k :: k in touched <==> k in now && !(k in b && now[k] == b[k])
  }

  /** Some line of `k` among the first ones processed did not find its quantity. */
  ghost predicate ChangedBy(b: Balances, lines: Lines<(nat, nat), nat>, order: seq<nat>, k: (nat, nat)) {
    exists i :: 0 <= i < |order| && order[i] in lines && lines[order[i]].0 == k && !LineUnchanged(b, lines, order[i])
  }

  lemma InsertionStep(b: Balances, lines: Lines<(nat, nat), nat>, order: seq<nat>)
    requires order != [] && InsertExplicit(b, lines, order[..|order| - 1]).Inserted?
    requires var done := InsertExplicit(b, lines, order[..|order| - 1]);
             && TouchedIsChanged(b, done.balances, done.touched)
             && done.balances == PutInOrder(b, lines, order[..|order| - 1])
    ensures var done := InsertExplicit(b, lines, order);
            done.Inserted? ==>
              TouchedIsChanged(b, done.balances, done.touched) && done.balances == PutInOrder(b, lines, order)
  {
  }

  /** A successful insertion wrote every line, the one processed last of a key last. */
  lemma {:induction false} InsertionWrites(b: Balances, lines: Lines<(nat, nat), nat>, order: seq<nat>)
    requires InsertExplicit(b, lines, order).Inserted?
    ensures InsertExplicit(b, lines, order).balances == PutInOrder(b, lines, order)
    ensures TouchedIsChanged(b, InsertExplicit(b, lines, order).balances, InsertExplicit(b, lines, order).touched)
  {
    if order != [] {
      InsertionWrites(b, lines, order[..|order| - 1]);
      InsertionStep(b, lines, order);
    }
  }

  lemma {:induction false} TouchedBy(b: Balances, lines: Lines<(nat, nat), nat>, order: seq<nat>, k: (nat, nat))
    requires InsertExplicit(b, lines, order).Inserted?
    ensures k in InsertExplicit(b, lines, order).touched <==> ChangedBy(b, lines, order, k)
  {
    if order != [] {
      var init, l := order[..|order| - 1], order[|order| - 1];
      TouchedBy(b, lines, init, k);
      InsertionWrites(b, lines, init);
      assert forall i :: 0 <= i < |init| ==> init[i] == order[i];
      if ChangedBy(b, lines, init, k) {
        var i :| 0 <= i < |init| && init[i] in lines && lines[init[i]].0 == k && !LineUnchanged(b, lines, init[i]);
        assert order[i] in lines && !LineUnchanged(b, lines, order[i]);
      }
      if l in lines && lines[l].0 == k && !LineUnchanged(b, lines, l) {
        assert order[|init|] in lines && !LineUnchanged(b, lines, order[|init|]);
      }
    }
  }

  /** The insertion goes through exactly when only the line processed last of each
      pair changes it; otherwise it touches a row a second time. */
  lemma {:induction false} InsertionExact(b: Balances, lines: Lines<(nat, nat), nat>, order: seq<nat>)
    ensures InsertExplicit(b, lines, order).Inserted? <==> OnlyLastChanges(b, lines, order)
  {
    if order != [] {
      var init, l := order[..|order| - 1], order[|order| - 1];
      InsertionExact(b, lines, init);
      assert forall i :: 0 <= i < |init| ==> init[i] == order[i];
      if OnlyLastChanges(b, lines, init) && l in lines {
        TouchedBy(b, lines, init, lines[l].0);
        LastAdded(b, lines, order);
      }
    }
  }

  lemma LastAdded(b: Balances, lines: Lines<(nat, nat), nat>, order: seq<nat>)
    requires order != [] && order[|order| - 1] in lines
    requires OnlyLastChanges(b, lines, order[..|order| - 1])
    ensures OnlyLastChanges(b, lines, order) <==>
              !ChangedBy(b, lines, order[..|order| - 1], lines[order[|order| - 1]].0)
  {
    var init := order[..|order| - 1];
    assert forall i :: 0 <= i < |init| ==> init[i] == order[i];
  }

  /** With unique keys every order goes through, and all with the same balances. */
  lemma AnyOrderIfUnique(b: Balances, lines: Lines<(nat, nat), nat>, order: seq<nat>)
    requires UniqueKeys(lines) && IsOrder(order, lines.Keys)
    ensures InsertExplicit(b, lines, order).Inserted?
    ensures InsertExplicit(b, lines, order).balances == b + DistinctOn(lines)
  {
    InsertionExact(b, lines, order);
    InsertionWrites(b, lines, order);
    PutInOrderAdds(b, lines, order);
    OrderExact(lines, order);
    UniqueEnds(lines, order);
  }

  const FIVE_IN_STOCK: Balances := map[(1, 1) := 5]
  const SEVEN_THEN_FIVE: Lines<(nat, nat), nat> := map[2 := ((1, 1), 7), 3 := ((1, 1), 5)]

  lemma OrdersDiffer()
    ensures InsertExplicit(FIVE_IN_STOCK, SEVEN_THEN_FIVE, [2, 3]).CannotAffectRowTwice?
    ensures InsertExplicit(FIVE_IN_STOCK, SEVEN_THEN_FIVE, [3, 2]) == Inserted(map[(1, 1) := 7], {(1, 1)})
  {
    var b, lines := FIVE_IN_STOCK, SEVEN_THEN_FIVE;
    assert [2, 3][..1] == [2] && [2][..0] == [] && [3, 2][..1] == [3] && [3][..0] == [];
    assert InsertExplicit(b, lines, [2]) == InsertLine(Inserted(b, {}), lines, 2);
    assert InsertExplicit(b, lines, [2, 3]) == InsertLine(InsertExplicit(b, lines, [2]), lines, 3);
    assert InsertExplicit(b, lines, [3]) == InsertLine(Inserted(b, {}), lines, 3);
    assert InsertExplicit(b, lines, [3, 2]) == InsertLine(InsertExplicit(b, lines, [3]), lines, 2);
  }

  lemma FoldEndsWithFive()
    ensures DistinctOn(SEVEN_THEN_FIVE) == map[(1, 1) := 5]
  {
    var lines := SEVEN_THEN_FIVE;
    assert Highest(lines, 3);
    LastLineIsHighest(lines, 3);
    assert KeysOf(lines) == {(1, 1)};
  }

  lemma EndsOnSeven()
    ensures IsOrder([3, 2], SEVEN_THEN_FIVE.Keys) && !EndsOnHighest(SEVEN_THEN_FIVE, [3, 2])
  {
    assert LastProcessed(SEVEN_THEN_FIVE, [3, 2], 1) && Highest(SEVEN_THEN_FIVE, 3);
  }

  /** With a repeated pair the order decides between going through and raising, and
      about the quantity: one order leaves 7 where the fold in line order has 5. */
  lemma OrderMatters()
    ensures InsertExplicit(FIVE_IN_STOCK, SEVEN_THEN_FIVE, [2, 3]).CannotAffectRowTwice?
    ensures InsertExplicit(FIVE_IN_STOCK, SEVEN_THEN_FIVE, [3, 2]).Inserted?
    ensures InsertExplicit(FIVE_IN_STOCK, SEVEN_THEN_FIVE, [3, 2]).balances
         != FIVE_IN_STOCK + DistinctOn(SEVEN_THEN_FIVE)
    ensures IsOrder([3, 2], SEVEN_THEN_FIVE.Keys) && !EndsOnHighest(SEVEN_THEN_FIVE, [3, 2])
  {
    OrdersDiffer();
    FoldEndsWithFive();
    EndsOnSeven();
    assert map[(1, 1) := 7][(1, 1)] != map[(1, 1) := 5][(1, 1)];
  }

  /** Zeroing the missing pairs after the write is zeroing all pairs before it. */
  lemma ZeroMissingFirst(b: Balances, lines: Lines<(nat, nat), nat>, order: seq<nat>, affected: set<nat>)
    requires IsOrder(order, lines.Keys)
    ensures ZeroMissing(PutInOrder(b, lines, order), affected, KeysOf(lines))
         == PutInOrder(ZeroMissing(b, affected, {}), lines, order)
  {
    PutInOrderAdds(b, lines, order);
    PutInOrderAdds(ZeroMissing(b, affected, {}), lines, order);
    OrderExact(lines, order);
    ZeroAround(b, PutInOrder(map[], lines, order), affected);
  }

  lemma ZeroAround(b: Balances, written: Balances, affected: set<nat>)
    ensures ZeroMissing(b + written, affected, written.Keys) == ZeroMissing(b, affected, {}) + written
  {
  }

  lemma AffectedCode(w: Catalog, st: Staging, a: Text)
    requires UniqueIds(w) && a in w
    ensures w[a].id in AffectedWarehouses(st, w) <==> a in Codes(st)
  {
    if w[a].id in AffectedWarehouses(st, w) {
      var c :| c in Codes(st) && c in w && w[c].id == w[a].id;
      assert c == a;
    }
  }

  lemma CodedZeroAt(w: Catalog, p: Catalog, b: Balances, st: Staging, k: (Text, Text))
    requires UniqueIds(w)
    ensures var zeroed := Coded(w, p, ZeroMissing(b, AffectedWarehouses(st, w), {}));
            && (k in zeroed <==> k in Coded(w, p, b))
            && (k in zeroed ==> zeroed[k] == if k.0 in Codes(st) then 0 else Coded(w, p, b)[k])
  {
    CodedKey(w, p, b, k);
    CodedKey(w, p, ZeroMissing(b, AffectedWarehouses(st, w), {}), k);
    if k.0 in w {
      AffectedCode(w, st, k.0);
    }
  }

  lemma CodedZero(w: Catalog, p: Catalog, b: Balances, st: Staging)
    requires UniqueIds(w)
    ensures Coded(w, p, ZeroMissing(b, AffectedWarehouses(st, w), {})) == ZeroWarehouses(Coded(w, p, b), Codes(st))
  {
    var zeroed, all := Coded(w, p, ZeroMissing(b, AffectedWarehouses(st, w), {})), Coded(w, p, b);
    forall k: (Text, Text)
      ensures k in zeroed <==> k in all
      ensures k in zeroed ==> zeroed[k] == if k.0 in Codes(st) then 0 else all[k]
    {
      CodedZeroAt(w, p, b, st, k);
    }
    ZeroedIs(zeroed, all, Codes(st));
  }

  lemma ZeroedIs(zeroed: map<(Text, Text), nat>, all: map<(Text, Text), nat>, codes: set<Text>)
    requires forall k :: k in zeroed <==> k in all
    requires forall k :: k in zeroed ==> zeroed[k] == if k.0 in codes then 0 else all[k]
    ensures zeroed == ZeroWarehouses(all, codes)
  {
  }

  // ---------------------------------------------------------------------
  // The transaction
  // ---------------------------------------------------------------------

  /** A catalog after its upsert. */
  lemma UpsertedCatalog(c: Catalog, lines: Lines<Text, Text>, newIds: map<Text, nat>)
    requires UniqueIds(c) && FreshIds(c, KeysOf(lines), newIds)
    ensures var d := Upsert(c, DistinctOn(lines), newIds);
            && UniqueIds(d) && Extends(c, d) && KeysOf(lines) <= d.Keys
            && Names(d) == Names(c) + DistinctOn(lines)
  {
    UpsertIds(c, DistinctOn(lines), newIds);
    UpsertNames(c, DistinctOn(lines), newIds);
  }

  lemma UpsertedCatalogs(t: Tables, st: Staging, choices: Choices)
    requires ValidTables(t) && CanChoose(t, st, choices)
    ensures var w := UpsertWarehouses(t, st, choices.warehouses);
            var p := UpsertProducts(t, st, choices.products);
            && UniqueIds(w) && Extends(t.warehouses, w) && Codes(st) <= w.Keys
            && Names(w) == Names(t.warehouses) + DistinctOn(WarehouseLines(st))
            && UniqueIds(p) && Extends(t.products, p) && Skus(st) <= p.Keys
            && Names(p) == Names(t.products) + DistinctOn(ProductLines(st))
            && Coded(w, p, t.balances) == Coded(t.warehouses, t.products, t.balances)
  {
    UpsertedCatalog(t.warehouses, WarehouseLines(st), choices.warehouses);
    UpsertedCatalog(t.products, ProductLines(st), choices.products);
    CodedUnchanged(t.warehouses, t.products, UpsertWarehouses(t, st, choices.warehouses),
                   UpsertProducts(t, st, choices.products), t.balances);
  }

  lemma JoinedLines(w: Catalog, p: Catalog, st: Staging)
    requires UniqueIds(w) && UniqueIds(p) && Codes(st) <= w.Keys && Skus(st) <= p.Keys
    ensures Joined(w, p, ExplicitPairs(st, w, p), PairLines(st)) && ExplicitPairs(st, w, p).Keys == st.Keys
    ensures UniquePairs(st) ==> UniqueKeys(ExplicitPairs(st, w, p))
  {
    NoRowLost(st, w, p);
    assert PairLines(st).Keys == st.Keys;
    if UniquePairs(st) {
      UniqueJoined(w, p, ExplicitPairs(st, w, p), PairLines(st));
    }
  }

  /** The balances after the write and the zeroing, seen by code. */
  lemma WrittenBalances(w: Catalog, p: Catalog, b: Balances, st: Staging, order: seq<nat>)
    requires UniqueIds(w) && UniqueIds(p) && Codes(st) <= w.Keys && Skus(st) <= p.Keys && IsOrder(order, st.Keys)
    requires InsertExplicit(b, ExplicitPairs(st, w, p), order).Inserted?
    ensures var lines := ExplicitPairs(st, w, p);
            var now := InsertExplicit(b, lines, order).balances;
            Coded(w, p, ZeroMissing(now, AffectedWarehouses(st, w), KeysOf(lines)))
            == ZeroWarehouses(Coded(w, p, b), Codes(st)) + PutInOrder(map[], PairLines(st), order)
  {
    var lines, affected := ExplicitPairs(st, w, p), AffectedWarehouses(st, w);
    JoinedLines(w, p, st);
    InsertionWrites(b, lines, order);
    ZeroMissingFirst(b, lines, order, affected);
    CodedPutInOrder(w, p, ZeroMissing(b, affected, {}), lines, PairLines(st), order);
    CodedZero(w, p, b, st);
    PutInOrderAdds(ZeroWarehouses(Coded(w, p, b), Codes(st)), PairLines(st), order);
  }

  /** The stock that the transaction leaves when it goes through: each pair ends on
      the quantity of its row processed last. */
  ghost function SnapshotInOrder(v: Stock, st: Staging, order: seq<nat>): Stock {
    Stock(v.warehouses + DistinctOn(WarehouseLines(st)),
          v.products + DistinctOn(ProductLines(st)),
          ZeroWarehouses(v.balances, Codes(st)) + PutInOrder(map[], PairLines(st), order))
  }

  lemma ApplyView(t: Tables, st: Staging, choices: Choices)
    requires ValidTables(t) && CanChoose(t, st, choices) && ApplyStock(t, st, choices).Applied?
    ensures View(ApplyStock(t, st, choices).tables) == SnapshotInOrder(View(t), st, choices.order)
  {
    UpsertedCatalogs(t, st, choices);
    WrittenBalances(UpsertWarehouses(t, st, choices.warehouses), UpsertProducts(t, st, choices.products),
                    t.balances, st, choices.order);
  }

  /** Adding two maps with the same keys gives the same result just when they agree. */
  lemma SameSum<K, V>(b: map<K, V>, m: map<K, V>, n: map<K, V>)
    requires m.Keys == n.Keys
    ensures b + m == b + n <==> m == n
  {
    if b + m == b + n {
      forall k | k in m
        ensures m[k] == n[k]
      {
        assert (b + m)[k] == m[k] && (b + n)[k] == n[k];
      }
    }
  }

  /** The order matters for nothing but the row on which each pair ends. */
  lemma SnapshotOrderExact(v: Stock, st: Staging, order: seq<nat>)
    requires IsOrder(order, st.Keys)
    ensures SnapshotInOrder(v, st, order) == Snapshot(v, st) <==> EndsOnHighest(PairLines(st), order)
  {
    PairsOrderExact(ZeroWarehouses(v.balances, Codes(st)), st, order);
    SnapshotByTable(v, st);
  }

  lemma PairsOrderExact(b: map<(Text, Text), nat>, st: Staging, order: seq<nat>)
    requires IsOrder(order, st.Keys)
    ensures b + PutInOrder(map[], PairLines(st), order) == b + DistinctOn(PairLines(st))
            <==> EndsOnHighest(PairLines(st), order)
  {
    assert PairLines(st).Keys == st.Keys;
    OrderExact(PairLines(st), order);
    SameSum(b, PutInOrder(map[], PairLines(st), order), DistinctOn(PairLines(st)));
  }

  /** Whenever the set-based transaction goes through, in whatever order, it has the
      meaning of the row-by-row snapshot exactly when each pair ends on the quantity
      of its highest line. With unique pairs every order goes through and does. */
  lemma ApplyIsSnapshot(t: Tables, st: Staging, choices: Choices)
    requires ValidTables(t) && CanChoose(t, st, choices)
    ensures var done := ApplyStock(t, st, choices);
            && (done.Applied? ==>
                  (View(done.tables) == Snapshot(View(t), st) <==> EndsOnHighest(PairLines(st), choices.order)))
            && (UniquePairs(st) ==> done.Applied? && View(done.tables) == Snapshot(View(t), st))
  {
    if ApplyStock(t, st, choices).Applied? {
      ApplyView(t, st, choices);
      SnapshotOrderExact(View(t), st, choices.order);
    }
    if UniquePairs(st) {
      UniqueApplies(t, st, choices);
      UniqueEnds(PairLines(st), choices.order);
    }
  }

  lemma UniqueApplies(t: Tables, st: Staging, choices: Choices)
    requires ValidTables(t) && CanChoose(t, st, choices) && UniquePairs(st)
    ensures ApplyStock(t, st, choices).Applied?
  {
    var w, p := UpsertWarehouses(t, st, choices.warehouses), UpsertProducts(t, st, choices.products);
    UpsertedCatalogs(t, st, choices);
    JoinedLines(w, p, st);
    AnyOrderIfUnique(t.balances, ExplicitPairs(st, w, p), choices.order);
  }

  lemma ReferencesKept(w: Catalog, p: Catalog, b: Balances, st: Staging, order: seq<nat>)
    requires forall k :: k in b ==> HasId(w, k.0) && HasId(p, k.1)
    ensures forall k :: k in PutInOrder(b, ExplicitPairs(st, w, p), order) ==> HasId(w, k.0) && HasId(p, k.1)
  {
    var lines := ExplicitPairs(st, w, p);
    PutInOrderAdds(b, lines, order);
    PutInOrderKeys(lines, order);
    forall k | k in KeysIn(lines, order)
      ensures HasId(w, k.0) && HasId(p, k.1)
    {
      var l :| l in order && l in lines && lines[l].0 == k;
      assert w[st[l].warehouseCode].id == k.0 && p[st[l].sku].id == k.1;
    }
  }

  lemma ReferencesGrow(c: Catalog, d: Catalog, e: Catalog, f: Catalog, b: Balances)
    requires Extends(c, d) && Extends(e, f)
    requires forall k :: k in b ==> HasId(c, k.0) && HasId(e, k.1)
    ensures forall k :: k in b ==> HasId(d, k.0) && HasId(f, k.1)
  {
    forall k | k in b
      ensures HasId(d, k.0) && HasId(f, k.1)
    {
      HasIdGrows(c, d, k.0);
      HasIdGrows(e, f, k.1);
    }
  }

  /** The keys of the tables survive the transaction. */
  lemma ApplyKeepsTablesValid(t: Tables, st: Staging, choices: Choices)
    requires ValidTables(t) && CanChoose(t, st, choices) && ApplyStock(t, st, choices).Applied?
    ensures ValidTables(ApplyStock(t, st, choices).tables)
  {
    var w, p := UpsertWarehouses(t, st, choices.warehouses), UpsertProducts(t, st, choices.products);
    UpsertedCatalogs(t, st, choices);
    InsertionWrites(t.balances, ExplicitPairs(st, w, p), choices.order);
    ReferencesGrow(t.warehouses, w, t.products, p, t.balances);
    ReferencesKept(w, p, t.balances, st, choices.order);
  }
}
