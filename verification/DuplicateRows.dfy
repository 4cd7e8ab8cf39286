/** Detection of repeated (warehouse, sku) pairs among the staged rows. */
module DuplicateRows {
  import opened Common
  import opened MapFolds
  import opened CsvValidation
  import opened SnapshotModel

  /** The staged rows of the same pair that come before line `l`. */
  function Earlier(st: Staging, l: nat): set<nat>
    requires l in st
  {
    set m | m in st && m < l && Pair(st[m]) == Pair(st[l])
  }

  /** row_number() OVER (PARTITION BY warehouse_code, sku ORDER BY line_number). */
  function RowNumber(st: Staging, l: nat): nat
    requires l in st
  {
    1 + |Earlier(st, l)|
  }

  function DuplicateLines(st: Staging): set<nat> {
    set l | l in st && RowNumber(st, l) > 1
  }

  /** The issues stored for the duplicate lines below `n`. */
  function DuplicateIssues(st: Staging, n: nat): seq<Issue> {
    if n == 0 then []
    else DuplicateIssues(st, n - 1) +
         if n - 1 in DuplicateLines(st) then [Issue(Some(n - 1), None, DuplicateWarehouseSku)] else []
  }

  /** Exactly the rows with an earlier row of the same pair are flagged. */
  lemma FlaggedIffEarlier(st: Staging, l: nat)
    ensures l in DuplicateLines(st) <==> l in st && exists m :: m in st && m < l && Pair(st[m]) == Pair(st[l])
  {
    if l in st {
      if exists m :: m in st && m < l && Pair(st[m]) == Pair(st[l]) {
        var m :| m in st && m < l && Pair(st[m]) == Pair(st[l]);
        assert m in Earlier(st, l);
      } else {
        assert Earlier(st, l) == {};
      }
    }
  }

  /** Each pair has a first line, which is not flagged. */
  lemma {:induction false} FirstLine(st: Staging, l: nat) returns (first: nat)
    requires l in st
    ensures first in st && Pair(st[first]) == Pair(st[l]) && first !in DuplicateLines(st)
    decreases l
  {
    FlaggedIffEarlier(st, l);
    if l in DuplicateLines(st) {
      var m :| m in st && m < l && Pair(st[m]) == Pair(st[l]);
      first := FirstLine(st, m);
    } else {
      first := l;
    }
  }

  lemma FirstsUnique(st: Staging, firsts: Lines<(Text, Text), nat>)
    requires firsts == map l | l in st && l !in DuplicateLines(st) :: PairLines(st)[l]
    ensures UniqueKeys(firsts) && KeysOf(firsts) == KeysOf(PairLines(st))
  {
    forall l, m | l in firsts && m in firsts && firsts[l].0 == firsts[m].0
      ensures l == m
    {
      FlaggedIffEarlier(st, l);
      FlaggedIffEarlier(st, m);
    }
    forall k | k in KeysOf(PairLines(st))
      ensures k in KeysOf(firsts)
    {
      var l :| l in PairLines(st) && PairLines(st)[l].0 == k;
      var first := FirstLine(st, l);
      assert first in firsts && firsts[first].0 == k;
    }
    forall k | k in KeysOf(firsts)
      ensures k in KeysOf(PairLines(st))
    {
      var l :| l in firsts && firsts[l].0 == k;
      assert l in PairLines(st);
    }
  }

  lemma SplitCount(all: set<nat>, part: set<nat>)
    requires part <= all
    ensures |part| + |all - part| == |all|
  {
    assert part + (all - part) == all;
  }

  /** As many rows are flagged as there are rows beyond one per pair. */
  lemma FlaggedCount(st: Staging)
    ensures |DuplicateLines(st)| + |KeysOf(PairLines(st))| == |st|
  {
    var flagged, lines := DuplicateLines(st), PairLines(st);
    var firsts := map l | l in st && l !in flagged :: lines[l];
    FirstsUnique(st, firsts);
    UniqueKeysCount(firsts);
    assert firsts.Keys == st.Keys - flagged;
    SplitCount(st.Keys, flagged);
  }

  /** Nothing is flagged iff the pair is a key of the staged rows. */
  lemma NoneIffUnique(st: Staging)
    ensures DuplicateLines(st) == {} <==> UniquePairs(st)
  {
    if DuplicateLines(st) == {} {
      forall l, m | l in PairLines(st) && m in PairLines(st) && PairLines(st)[l].0 == PairLines(st)[m].0
        ensures l == m
      {
        FlaggedIffEarlier(st, l);
        FlaggedIffEarlier(st, m);
      }
    } else {
      var l :| l in DuplicateLines(st);
      FlaggedIffEarlier(st, l);
      var m :| m in st && m < l && Pair(st[m]) == Pair(st[l]);
      assert PairLines(st)[l].0 == PairLines(st)[m].0;
    }
  }

  lemma {:induction false} IssueCount(st: Staging, n: nat)
    ensures |DuplicateIssues(st, n)| == |set l | l in DuplicateLines(st) && l < n|
  {
    if n > 0 {
      IssueCount(st, n - 1);
      var below := set l | l in DuplicateLines(st) && l < n - 1;
      var upTo := set l | l in DuplicateLines(st) && l < n;
      if n - 1 in DuplicateLines(st) {
        assert upTo == below + {n - 1};
      } else {
        assert upTo == below;
      }
    } else {
      assert (set l | l in DuplicateLines(st) && l < n) == {};
    }
  }

  /** One issue is stored per flagged row. */
  lemma OneIssuePerDuplicate(st: Staging)
    ensures |DuplicateIssues(st, Bound(st))| == |DuplicateLines(st)|
    ensures DuplicateIssues(st, Bound(st)) == [] <==> UniquePairs(st)
  {
    IssueCount(st, Bound(st));
    assert (set l | l in DuplicateLines(st) && l < Bound(st)) == DuplicateLines(st);
    NoneIffUnique(st);
  }

  ghost predicate HasEarlier(st: Staging, l: nat) {
    l in st && exists m :: m in st && m < l && Pair(st[m]) == Pair(st[l])
  }

  predicate Rising(ls: seq<nat>) {
    forall j, k :: 0 <= j < k < |ls| ==> ls[j] < ls[k]
  }

  function ErrorsOn(ls: seq<nat>): seq<Issue> {
    seq(|ls|, k requires 0 <= k < |ls| => Issue(Some(ls[k]), None, DuplicateWarehouseSku))
  }

  /** One error on the line of each row with an earlier row of its pair, in the order
      of the lines; and no other error. */
  ghost predicate RepeatsReported(issues: seq<Issue>, st: Staging) {
    exists ls :: Rising(ls) && (forall l :: l in ls <==> HasEarlier(st, l)) && issues == ErrorsOn(ls)
  }

  lemma RisingNext(ls: seq<nat>, n: nat)
    requires Rising(ls) && forall l :: l in ls ==> l < n
    ensures Rising(ls + [n])
  {
    forall j, k | 0 <= j < k < |ls| + 1
      ensures (ls + [n])[j] < (ls + [n])[k]
    {
      assert ls[j] in ls;
    }
  }

  lemma {:induction false} RepeatsBelow(st: Staging, n: nat) returns (ls: seq<nat>)
    ensures Rising(ls) && DuplicateIssues(st, n) == ErrorsOn(ls)
    ensures forall l :: l in ls <==> l < n && l in DuplicateLines(st)
  {
    if n == 0 {
      ls := [];
    } else {
      ls := RepeatsBelow(st, n - 1);
      if n - 1 in DuplicateLines(st) {
        RisingNext(ls, n - 1);
        assert ErrorsOn(ls + [n - 1]) == ErrorsOn(ls) + [Issue(Some(n - 1), None, DuplicateWarehouseSku)];
        ls := ls + [n - 1];
      }
    }
  }

  /** The duplicate errors of the staged rows: exactly one on the line of every row
      with an earlier row of its pair, in line order. */
  lemma DuplicateIssuesExact(st: Staging)
    ensures RepeatsReported(DuplicateIssues(st, Bound(st)), st)
  {
    var ls := RepeatsBelow(st, Bound(st));
    forall l
      ensures l in ls <==> HasEarlier(st, l)
    {
      FlaggedIffEarlier(st, l);
    }
  }
}
