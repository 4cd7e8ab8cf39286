/** The statements of the apply transaction, row by row. */
module StockStatements {
  import opened Common
  import opened MapFolds
  import opened SnapshotModel
  import opened StockTables

  /** The identity sequence of a catalog is ahead of its ids. */
  ghost predicate IdsBelow(c: Catalog, next: nat) {
    forall a :: a in c ==> c[a].id < next
  }

  /** The highest line by scanning the lines. */
  method LineBound<T>(lines: map<nat, T>) returns (n: nat)
    ensures n == Bound(lines)
  {
    n := 0;
    var rest := lines.Keys;
    while rest != {}
      invariant rest <= lines.Keys
      invariant forall l :: l in lines && l !in rest ==> l < n
      invariant n == 0 || n - 1 in lines
      decreases rest
    {
      var l :| l in rest;
      if n <= l {
        n := l + 1;
      }
      rest := rest - {l};
    }
  }

  /** Each key's value of its last line. */
  method LastValues<K(==), V>(lines: Lines<K, V>) returns (values: map<K, V>)
    ensures values == DistinctOn(lines)
  {
    var n := LineBound(lines);
    values := map[];
    for l := 0 to n
      invariant values == PutAll(map[], lines, l)
    {
      if l in lines {
        values := values[lines[l].0 := lines[l].1];
      }
    }
    DistinctOnIsPutAll<K, V>(map[], lines, n);
  }

  lemma {:induction false} FreshIdsExist(c: Catalog, source: set<Text>, next: nat) returns (newIds: map<Text, nat>)
    requires IdsBelow(c, next)
    ensures FreshIds(c, source, newIds)
    ensures forall a :: a in newIds ==> next <= newIds[a] < next + |source|
    decreases source
  {
    if source == {} {
      newIds := map[];
    } else {
      var a :| a in source;
      newIds := FreshIdsExist(c, source - {a}, next);
      if a !in c {
        newIds := newIds[a := next + |source| - 1];
      }
    }
  }

  /** Some rows of the statement are done: `source` is what is done so far. */
  ghost predicate Upserted(c: Catalog, source: map<Text, Text>, d: Catalog, newIds: map<Text, nat>,
                           next: nat, after: nat) {
    && next <= after && FreshIds(c, source.Keys, newIds)
    && (forall a :: a in newIds ==> next <= newIds[a] < after)
    && d == Upsert(c, source, newIds)
  }

  lemma InsertKeepsFresh(c: Catalog, source: set<Text>, newIds: map<Text, nat>, next: nat, after: nat, code: Text)
    requires IdsBelow(c, next) && FreshIds(c, source, newIds) && code !in source && code !in c && next <= after
    requires forall a :: a in newIds ==> next <= newIds[a] < after
    ensures FreshIds(c, source + {code}, newIds[code := after])
    ensures var newIds' := newIds[code := after];
            forall a :: a in newIds' ==> next <= newIds'[a] < after + 1
  {
    assert newIds[code := after].Keys == newIds.Keys + {code};
  }

  lemma InsertOneRow(c: Catalog, source: map<Text, Text>, newIds: map<Text, nat>, code: Text, name: Text, id: nat)
    requires newIds.Keys == source.Keys - c.Keys && code !in source && code !in c
    ensures source[code := name].Keys == source.Keys + {code}
    ensures Upsert(c, source[code := name], newIds[code := id])
         == Upsert(c, source, newIds)[code := Entry(id, name)]
  {
  }

  lemma InsertOne(c: Catalog, source: map<Text, Text>, d: Catalog, newIds: map<Text, nat>, next: nat, after: nat,
                  code: Text, name: Text)
    requires IdsBelow(c, next) && Upserted(c, source, d, newIds, next, after) && code !in source && code !in c
    ensures Upserted(c, source[code := name], d[code := Entry(after, name)], newIds[code := after], next, after + 1)
  {
    InsertKeepsFresh(c, source.Keys, newIds, next, after, code);
    InsertOneRow(c, source, newIds, code, name, after);
  }

  lemma UpdateOne(c: Catalog, source: map<Text, Text>, d: Catalog, newIds: map<Text, nat>, next: nat, after: nat,
                  code: Text, name: Text)
    requires IdsBelow(c, next) && Upserted(c, source, d, newIds, next, after) && code !in source && code in c
    ensures code in d && d[code] == c[code]
    ensures Upserted(c, source[code := name],
                     if c[code].name != name then d[code := Entry(c[code].id, name)] else d,
                     newIds, next, after + 1)
  {
    var source' := source[code := name];
    assert source'.Keys == source.Keys + {code};
    assert newIds.Keys == source'.Keys - c.Keys;
  }

  lemma UpsertedBelow(c: Catalog, source: map<Text, Text>, d: Catalog, newIds: map<Text, nat>, next: nat, after: nat)
    requires IdsBelow(c, next) && Upserted(c, source, d, newIds, next, after)
    ensures IdsBelow(d, after)
  {
    forall a | a in d
      ensures d[a].id < after
    {
      assert a in c || a in newIds;
    }
  }

  /** INSERT ... ON CONFLICT (code) DO UPDATE, row by row; every proposed row takes
      a value of the identity sequence. */
  method UpsertCatalog(c: Catalog, source: map<Text, Text>, next: nat)
    returns (d: Catalog, after: nat, ghost newIds: map<Text, nat>)
    requires IdsBelow(c, next)
    ensures FreshIds(c, source.Keys, newIds) && d == Upsert(c, source, newIds)
    ensures IdsBelow(d, after) && after >= next
  {
    d, after, newIds := c, next, map[];
    var rest := source.Keys;
    ghost var done: map<Text, Text> := map[];
    while rest != {}
      invariant rest <= source.Keys && done == source - rest
      invariant Upserted(c, done, d, newIds, next, after)
      decreases rest
    {
      var code :| code in rest;
      var name := source[code];
      if code !in c {
        InsertOne(c, done, d, newIds, next, after, code, name);
        d := d[code := Entry(after, name)];
        newIds := newIds[code := after];
      } else {
        UpdateOne(c, done, d, newIds, next, after, code, name);
        if d[code].name != name {
          d := d[code := Entry(d[code].id, name)];
        }
      }
      after := after + 1;
      rest := rest - {code};
      done := done[code := name];
    }
    assert done == source;
    UpsertedBelow(c, source, d, newIds, next, after);
  }

  /** The upsert of the names given by `lines`, each code's last one. */
  method UpsertLines(c: Catalog, lines: Lines<Text, Text>, next: nat)
    returns (d: Catalog, after: nat, ghost newIds: map<Text, nat>)
    requires IdsBelow(c, next)
    ensures FreshIds(c, KeysOf(lines), newIds) && d == Upsert(c, DistinctOn(lines), newIds)
    ensures IdsBelow(d, after) && after >= next
  {
    var names := LastValues(lines);
    d, after, newIds := UpsertCatalog(c, names, next);
  }

  /** Some order of the rows of a table. */
  method AnyOrder(ls: set<nat>) returns (order: seq<nat>)
    ensures IsOrder(order, ls)
  {
    order := [];
    var rest := ls;
    while rest != {}
      invariant rest <= ls && IsOrder(order, ls - rest)
      decreases rest
    {
      var l :| l in rest;
      OrderSnoc(order, ls - rest, l);
      order := order + [l];
      rest := rest - {l};
      assert ls - rest == ls - (rest + {l}) + {l};
    }
    assert ls - {} == ls;
  }

  lemma OrderSnoc(order: seq<nat>, ls: set<nat>, l: nat)
    requires IsOrder(order, ls) && l !in ls
    ensures IsOrder(order + [l], ls + {l})
  {
    forall i, j | 0 <= i < j < |order| + 1
      ensures (order + [l])[i] != (order + [l])[j]
    {
      assert order[i] in order;
    }
  }

  lemma {:induction false} OrderExists(ls: set<nat>) returns (order: seq<nat>)
    ensures IsOrder(order, ls)
    decreases ls
  {
    if ls == {} {
      order := [];
    } else {
      var l :| l in ls;
      order := OrderExists(ls - {l});
      OrderSnoc(order, ls - {l}, l);
      order := order + [l];
      assert ls - {l} + {l} == ls;
    }
  }

  lemma {:induction false} StaysRejected(b: Balances, lines: Lines<(nat, nat), nat>, order: seq<nat>, n: nat)
    requires n <= |order| && InsertExplicit(b, lines, order[..n]).CannotAffectRowTwice?
    ensures InsertExplicit(b, lines, order).CannotAffectRowTwice?
    decreases |order|
  {
    if n == |order| {
      assert order[..n] == order;
    } else {
      assert order[..|order| - 1][..n] == order[..n];
      StaysRejected(b, lines, order[..|order| - 1], n);
    }
  }

  /** The insertion of the joined rows in the given order, up to the first row it
      would touch twice. */
  method InsertLines(b: Balances, lines: Lines<(nat, nat), nat>, order: seq<nat>) returns (result: Insertion)
    ensures result == InsertExplicit(b, lines, order)
  {
    var now, touched: set<(nat, nat)> := b, {};
    for i := 0 to |order|
      invariant InsertExplicit(b, lines, order[..i]) == Inserted(now, touched)
    {
      var l := order[i];
      assert order[..i + 1][..i] == order[..i];
      if l in lines {
        var (k, q) := lines[l];
        if k in touched {
          StaysRejected(b, lines, order, i + 1);
          return CannotAffectRowTwice;
        }
        if k !in now || now[k] != q {
          now, touched := now[k := q], touched + {k};
        }
      }
    }
    assert order[..|order|] == order;
    result := Inserted(now, touched);
  }

  /** All statements of the transaction on a working copy of the tables. The
      identity values it takes are gone even if it is rolled back. */
  method ApplyRows(t: Tables, st: Staging, nextWarehouseId: nat, nextProductId: nat)
    returns (applied: Applied, warehouseId: nat, productId: nat, ghost choices: Choices)
    requires IdsBelow(t.warehouses, nextWarehouseId) && IdsBelow(t.products, nextProductId)
    ensures CanChoose(t, st, choices) && applied == ApplyStock(t, st, choices)
    ensures warehouseId >= nextWarehouseId && productId >= nextProductId
    ensures applied.Applied? ==>
              IdsBelow(applied.tables.warehouses, warehouseId) && IdsBelow(applied.tables.products, productId)
  {
    ghost var warehouseIds, productIds;
    var w, p;
    w, warehouseId, warehouseIds := UpsertLines(t.warehouses, WarehouseLines(st), nextWarehouseId);
    p, productId, productIds := UpsertLines(t.products, ProductLines(st), nextProductId);
    var order := AnyOrder(st.Keys);
    choices := Choices(warehouseIds, productIds, order);
    applied := WriteBalances(w, p, t.balances, st, order);
  }

  method WriteBalances(w: Catalog, p: Catalog, b: Balances, st: Staging, order: seq<nat>) returns (applied: Applied)
    ensures applied == WriteStock(w, p, b, st, order)
  {
    var lines, affected := ExplicitPairs(st, w, p), AffectedWarehouses(st, w);
    var counters := CalculateCounters(b, lines, affected);
    var written := InsertLines(b, lines, order);
    match written {
      case CannotAffectRowTwice =>
        applied := RolledBack;
      case Inserted(now, _) =>
        applied := Applied(Tables(w, p, ZeroMissing(now, affected, KeysOf(lines))), counters);
    }
  }
}
