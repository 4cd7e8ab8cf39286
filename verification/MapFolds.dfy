/** Writing keyed lines into a map in line order. */
module MapFolds {

  /** `lines` maps a line number to the key and the value it writes. */
  type Lines<K, V> = map<nat, (K, V)>

  /** The lines below `n` written in ascending order; a later line wins. */
  function PutAll<K, V>(b: map<K, V>, lines: Lines<K, V>, n: nat): map<K, V> {
    if n == 0 then b
    else
      var before := PutAll(b, lines, n - 1);
      if n - 1 in lines then before[lines[n - 1].0 := lines[n - 1].1] else before
  }

  function KeysBelow<K, V>(lines: Lines<K, V>, n: nat): set<K> {
    set l | l in lines && l < n :: lines[l].0
  }

  function KeysOf<K, V>(lines: Lines<K, V>): set<K> {
    set l | l in lines :: lines[l].0
  }

  predicate Bounds<T>(m: map<nat, T>, n: nat) {
    forall l :: l in m ==> l < n
  }

  ghost function BoundOf(s: set<nat>): (n: nat)
    ensures forall l :: l in s ==> l < n
    ensures n == 0 || n - 1 in s
  {
    if s == {} then 0
    else
      var x :| x in s;
      var n := BoundOf(s - {x});
      assert forall l :: l in s ==> l == x || l in s - {x};
      if x < n then n else x + 1
  }

  /** One above the highest line of `m`, or 0. */
  ghost function Bound<T>(m: map<nat, T>): (n: nat)
    ensures Bounds(m, n) && (n == 0 || n - 1 in m)
  {
    BoundOf(m.Keys)
  }

  lemma {:induction false} PutAllKeys<K, V>(b: map<K, V>, lines: Lines<K, V>, n: nat)
    ensures PutAll(b, lines, n).Keys == b.Keys + KeysBelow(lines, n)
    ensures forall k :: k in b && k !in KeysBelow(lines, n) ==> PutAll(b, lines, n)[k] == b[k]
  {
    if n > 0 {
      PutAllKeys(b, lines, n - 1);
      assert KeysBelow(lines, n) == KeysBelow(lines, n - 1) + if n - 1 in lines then {lines[n - 1].0} else {};
    }
  }

  /** What a written key ends up with does not depend on the map written into. */
  lemma {:induction false} PutAllOverrides<K, V>(b1: map<K, V>, b2: map<K, V>, lines: Lines<K, V>, n: nat, k: K)
    requires k in KeysBelow(lines, n)
    ensures k in PutAll(b1, lines, n) && k in PutAll(b2, lines, n)
    ensures PutAll(b1, lines, n)[k] == PutAll(b2, lines, n)[k]
  {
    PutAllKeys(b1, lines, n);
    PutAllKeys(b2, lines, n);
    if !(n - 1 in lines && lines[n - 1].0 == k) {
      PutAllOverrides(b1, b2, lines, n - 1, k);
    }
  }

  lemma {:induction false} PutAllLast<K, V>(b: map<K, V>, lines: Lines<K, V>, n: nat, last: nat)
    requires last in lines && last < n
    requires forall l :: l in lines && last < l < n ==> lines[l].0 != lines[last].0
    ensures lines[last].0 in PutAll(b, lines, n)
    ensures PutAll(b, lines, n)[lines[last].0] == lines[last].1
  {
    if last < n - 1 {
      PutAllLast(b, lines, n - 1, last);
    }
  }

  /** Line `l` has the highest number among those of key `k` below `n`. */
  ghost predicate HighestBelow<K, V>(lines: Lines<K, V>, k: K, l: nat, n: nat) {
    l in lines && l < n && lines[l].0 == k && forall m :: m in lines && m < n && lines[m].0 == k ==> m <= l
  }

  lemma {:induction false} HighestExists<K, V>(lines: Lines<K, V>, k: K, n: nat)
    requires k in KeysBelow(lines, n)
    ensures exists l :: HighestBelow(lines, k, l, n)
  {
    if n - 1 in lines && lines[n - 1].0 == k {
      assert HighestBelow(lines, k, n - 1, n);
    } else {
      HighestExists(lines, k, n - 1);
      var l :| HighestBelow(lines, k, l, n - 1);
      assert HighestBelow(lines, k, l, n);
    }
  }

  lemma AllBelow<K, V>(lines: Lines<K, V>, n: nat)
    requires Bounds(lines, n)
    ensures KeysBelow(lines, n) == KeysOf(lines)
  {
  }

  /** The line with the highest number among those of key `k`. */
  ghost function LastLine<K, V>(lines: Lines<K, V>, k: K): (last: nat)
    requires k in KeysOf(lines)
    ensures last in lines && lines[last].0 == k
    ensures forall l :: l in lines && lines[l].0 == k ==> l <= last
  {
    var n := Bound(lines);
    AllBelow(lines, n);
    HighestExists(lines, k, n);
    var last :| HighestBelow(lines, k, last, n);
    last
  }

  /** SELECT DISTINCT ON (key) ... ORDER BY key, line_number DESC. */
  ghost function DistinctOn<K, V>(lines: Lines<K, V>): map<K, V> {
    map k | k in KeysOf(lines) :: lines[LastLine(lines, k)].1
  }

  /** Taking each key's last line is the same as writing the lines one by one. */
  lemma DistinctOnIsPutAll<K, V>(b: map<K, V>, lines: Lines<K, V>, n: nat)
    requires Bounds(lines, n)
    ensures PutAll(b, lines, n) == b + DistinctOn(lines)
  {
    PutAllKeys(b, lines, n);
    assert KeysBelow(lines, n) == KeysOf(lines);
    forall k | k in KeysOf(lines)
      ensures k in PutAll(b, lines, n) && PutAll(b, lines, n)[k] == DistinctOn(lines)[k]
    {
      PutAllLast(b, lines, n, LastLine(lines, k));
    }
  }

  /** No two lines have the same key. */
  ghost predicate UniqueKeys<K, V>(lines: Lines<K, V>) {
    forall l, m :: l in lines && m in lines && lines[l].0 == lines[m].0 ==> l == m
  }

  lemma {:induction false} UniqueKeysCount<K, V>(lines: Lines<K, V>)
    requires UniqueKeys(lines)
    ensures |KeysOf(lines)| == |lines|
    decreases lines.Keys
  {
    if lines == map[] {
      assert KeysOf(lines) == {};
    } else {
      var l :| l in lines;
      var rest := lines - {l};
      UniqueKeysCount(rest);
      forall k | k in KeysOf(lines)
        ensures k == lines[l].0 || k in KeysOf(rest)
      {
        var m :| m in lines && lines[m].0 == k;
        assert m == l || (m in rest && rest[m].0 == k);
      }
      assert KeysOf(lines) == KeysOf(rest) + {lines[l].0};
      assert rest.Keys == lines.Keys - {l};
    }
  }

  // ---------------------------------------------------------------------
  // Writing in an order that is not that of the line numbers
  // ---------------------------------------------------------------------

  /** `order` lists each of `ls` once. */
  ghost predicate IsOrder(order: seq<nat>, ls: set<nat>) {
    && (forall i, j :: 0 <= i < j < |order| ==> order[i] != order[j])
    && (forall l :: l in order <==> l in ls)
  }

  /** The lines written in the order in which they are processed. */
  function PutInOrder<K, V>(b: map<K, V>, lines: Lines<K, V>, order: seq<nat>): map<K, V> {
    if order == [] then b
    else
      var before, l := PutInOrder(b, lines, order[..|order| - 1]), order[|order| - 1];
      if l in lines then before[lines[l].0 := lines[l].1] else before
  }

  function KeysIn<K, V>(lines: Lines<K, V>, order: seq<nat>): set<K> {
    set l | l in order && l in lines :: lines[l].0
  }

  /** The `i`-th line processed is the last one of its key. */
  ghost predicate LastProcessed<K, V>(lines: Lines<K, V>, order: seq<nat>, i: nat) {
    && i < |order| && order[i] in lines
    && forall j :: i < j < |order| && order[j] in lines ==> lines[order[j]].0 != lines[order[i]].0
  }

  ghost predicate Highest<K, V>(lines: Lines<K, V>, l: nat) {
    l in lines && forall m :: m in lines && m > l ==> lines[m].0 != lines[l].0
  }

  /** For every key, the line processed last has the value of the highest line. */
  ghost predicate EndsOnHighest<K, V>(lines: Lines<K, V>, order: seq<nat>) {
    forall i: nat, m: nat :: LastProcessed(lines, order, i) && Highest(lines, m) && lines[m].0 == lines[order[i]].0 ==>
      lines[order[i]].1 == lines[m].1
  }

  lemma {:induction false} PutInOrderAdds<K, V>(b: map<K, V>, lines: Lines<K, V>, order: seq<nat>)
    ensures PutInOrder(b, lines, order) == b + PutInOrder(map[], lines, order)
  {
    if order != [] {
      PutInOrderAdds(b, lines, order[..|order| - 1]);
    }
  }

  lemma KeysSnoc<K, V>(lines: Lines<K, V>, order: seq<nat>)
    requires order != []
    ensures var l := order[|order| - 1];
            KeysIn(lines, order) == KeysIn(lines, order[..|order| - 1]) + if l in lines then {lines[l].0} else {}
  {
    assert order == order[..|order| - 1] + [order[|order| - 1]];
  }

  lemma {:induction false} PutInOrderKeys<K, V>(lines: Lines<K, V>, order: seq<nat>)
    ensures PutInOrder<K, V>(map[], lines, order).Keys == KeysIn(lines, order)
  {
    if order != [] {
      PutInOrderKeys(lines, order[..|order| - 1]);
      KeysSnoc(lines, order);
    }
  }

  lemma AllKeysIn<K, V>(lines: Lines<K, V>, order: seq<nat>)
    requires IsOrder(order, lines.Keys)
    ensures KeysIn(lines, order) == KeysOf(lines)
  {
  }

  lemma {:induction false} LastIsKept<K, V>(b: map<K, V>, lines: Lines<K, V>, order: seq<nat>, i: nat)
    requires LastProcessed(lines, order, i)
    ensures lines[order[i]].0 in PutInOrder(b, lines, order)
    ensures PutInOrder(b, lines, order)[lines[order[i]].0] == lines[order[i]].1
  {
    var init := order[..|order| - 1];
    if i < |init| {
      assert order[|init|] in lines ==> lines[order[|init|]].0 != lines[order[i]].0;
      assert forall j :: i < j < |init| ==> init[j] == order[j];
      LastIsKept(b, lines, init, i);
    }
  }

  lemma {:induction false} LastExists<K, V>(lines: Lines<K, V>, order: seq<nat>, k: K) returns (i: nat)
    requires k in KeysIn(lines, order)
    ensures LastProcessed(lines, order, i) && lines[order[i]].0 == k
  {
    var init, l := order[..|order| - 1], order[|order| - 1];
    if l in lines && lines[l].0 == k {
      i := |init|;
    } else {
      KeysSnoc(lines, order);
      i := LastExists(lines, init, k);
    }
  }

  lemma LastLineIsHighest<K, V>(lines: Lines<K, V>, m: nat)
    requires Highest(lines, m)
    ensures lines[m].0 in KeysOf(lines) && LastLine(lines, lines[m].0) == m
  {
    var last := LastLine(lines, lines[m].0);
    assert last >= m;
  }

  lemma HighestIsLastLine<K, V>(lines: Lines<K, V>, k: K)
    requires k in KeysOf(lines)
    ensures Highest(lines, LastLine(lines, k))
  {
  }

  lemma EndsAt<K, V>(lines: Lines<K, V>, order: seq<nat>, k: K)
    requires IsOrder(order, lines.Keys) && EndsOnHighest(lines, order) && k in KeysOf(lines)
    ensures k in PutInOrder<K, V>(map[], lines, order)
    ensures PutInOrder<K, V>(map[], lines, order)[k] == lines[LastLine(lines, k)].1
  {
    AllKeysIn(lines, order);
    var i := LastExists(lines, order, k);
    LastIsKept<K, V>(map[], lines, order, i);
    HighestIsLastLine(lines, k);
  }

  lemma EndsFrom<K, V>(lines: Lines<K, V>, order: seq<nat>, i: nat, m: nat)
    requires PutInOrder<K, V>(map[], lines, order) == DistinctOn(lines)
    requires LastProcessed(lines, order, i) && Highest(lines, m) && lines[m].0 == lines[order[i]].0
    ensures lines[order[i]].1 == lines[m].1
  {
    LastIsKept<K, V>(map[], lines, order, i);
    LastLineIsHighest(lines, m);
  }

  /** What an order writes is what the line order writes just when every key ends
      on the value of its highest line. */
  lemma OrderExact<K, V>(lines: Lines<K, V>, order: seq<nat>)
    requires IsOrder(order, lines.Keys)
    ensures PutInOrder<K, V>(map[], lines, order).Keys == KeysOf(lines)
    ensures PutInOrder<K, V>(map[], lines, order) == DistinctOn(lines) <==> EndsOnHighest(lines, order)
  {
    PutInOrderKeys(lines, order);
    AllKeysIn(lines, order);
    if EndsOnHighest(lines, order) {
      forall k | k in KeysOf(lines)
        ensures PutInOrder<K, V>(map[], lines, order)[k] == DistinctOn(lines)[k]
      {
        EndsAt(lines, order, k);
      }
    }
    if PutInOrder<K, V>(map[], lines, order) == DistinctOn(lines) {
      forall i: nat, m: nat | LastProcessed(lines, order, i) && Highest(lines, m) && lines[m].0 == lines[order[i]].0
        ensures lines[order[i]].1 == lines[m].1
      {
        EndsFrom(lines, order, i, m);
      }
    }
  }

  /** With unique keys every order does. */
  lemma UniqueEnds<K, V>(lines: Lines<K, V>, order: seq<nat>)
    requires UniqueKeys(lines)
    ensures EndsOnHighest(lines, order)
  {
  }
}
