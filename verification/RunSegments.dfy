/** Cycles of a worker as segments of runs, and the states that runs reach. */
module RunSegments {
  import opened Common
  import opened StockTables
  import opened ReportStore
  import opened WorkerProtocol
  import opened ExclusiveRuns
  import opened WorkerCycle

  ghost predicate IsSegment(states: seq<State>, actions: seq<Action>, batchSize: nat) {
    |states| == |actions| + 1 && forall k: nat :: k < |actions| ==> StepAt(states, actions, batchSize, k)
  }

  lemma SegmentSnoc(states: seq<State>, actions: seq<Action>, batchSize: nat, a: Action)
    requires IsSegment(states, actions, batchSize) && Enabled(states[|actions|], a)
    ensures IsSegment(states + [Step(states[|actions|], a, batchSize)], actions + [a], batchSize)
  {
    var longer, more := states + [Step(states[|actions|], a, batchSize)], actions + [a];
    forall k: nat | k < |more|
      ensures StepAt(longer, more, batchSize, k)
    {
      if k < |actions| {
        StepMoved(states, actions, k, longer, more, k, batchSize);
      }
    }
  }

  /** A step found at another position of another run. */
  lemma StepMoved(states: seq<State>, actions: seq<Action>, k: nat, others: seq<State>, more: seq<Action>, j: nat,
                  batchSize: nat)
    requires IsSegment(states, actions, batchSize) && k < |actions| && j < |more| && j + 1 < |others|
    requires others[j] == states[k] && others[j + 1] == states[k + 1] && more[j] == actions[k]
    ensures StepAt(others, more, batchSize, j)
  {
    assert StepAt(states, actions, batchSize, k);
  }

  // ---------------------------------------------------------------------
  // The worker at work
  // ---------------------------------------------------------------------

  /** Worker `w` holds the lock and stands at `p`; all else is as in `s`. */
  function At(s: State, w: nat, p: Point, checked: bool): State
    requires w < |s.workers|
  {
    s.(db := p.db, workers := s.workers[w := Worker(p.stage, checked)], holder := Some(w))
  }

  /** A check of the lock or a transaction of which the worker is told. */
  predicate WorksOn(a: Action, w: nat) {
    a == CheckLock(w) || (a.Commit? && a.w == w && a.acknowledged)
  }

  ghost predicate Works(states: seq<State>, actions: seq<Action>, batchSize: nat, w: nat, s: State, t: State) {
    && IsSegment(states, actions, batchSize) && states[0] == s && states[|actions|] == t
    && forall k: nat :: k < |actions| ==> WorksOn(actions[k], w)
  }

  lemma WorksNext(states: seq<State>, actions: seq<Action>, batchSize: nat, w: nat, s: State, t: State, a: Action)
    requires Works(states, actions, batchSize, w, s, t) && Enabled(t, a) && WorksOn(a, w)
    ensures var next := Step(t, a, batchSize);
            Works(states + [next], actions + [a], batchSize, w, s, next)
  {
    SegmentSnoc(states, actions, batchSize, a);
  }

  lemma CommitAt(s: State, w: nat, p: Point, q: Point, checked: bool, choices: Choices, batchSize: nat)
    requires w < |s.workers| && MayWrite(Worker(p.stage, checked)) && CanTransact(p.db, p.stage, s.originals, choices)
    requires Transact(p.db, p.stage, s.originals, batchSize, choices) == (q.db, q.stage)
    ensures Enabled(At(s, w, p, checked), Commit(w, choices, true))
    ensures Step(At(s, w, p, checked), Commit(w, choices, true), batchSize) == At(s, w, q, false)
  {
  }

  lemma CheckAt(s: State, w: nat, p: Point, checked: bool, batchSize: nat)
    requires w < |s.workers| && HasReport(p.stage)
    ensures Enabled(At(s, w, p, checked), CheckLock(w))
    ensures Step(At(s, w, p, checked), CheckLock(w), batchSize) == At(s, w, p, true)
  {
  }

  /** One more move: the claim at once, any other transaction after a check. */
  lemma MoveWorks(states: seq<State>, actions: seq<Action>, batchSize: nat, w: nat, s: State, p: Point, q: Point)
    returns (longer: seq<State>, more: seq<Action>)
    requires w < |s.workers| && Moves(p, q, s.originals, batchSize)
    requires Works(states, actions, batchSize, w, At(s, w, Point(s.db, Holding), false), At(s, w, p, false))
    ensures Works(longer, more, batchSize, w, At(s, w, Point(s.db, Holding), false), At(s, w, q, false))
  {
    var choices :| CanTransact(p.db, p.stage, s.originals, choices)
               && Transact(p.db, p.stage, s.originals, batchSize, choices) == (q.db, q.stage);
    var start := At(s, w, Point(s.db, Holding), false);
    longer, more := states, actions;
    if HasReport(p.stage) {
      CheckAt(s, w, p, false, batchSize);
      WorksNext(longer, more, batchSize, w, start, At(s, w, p, false), CheckLock(w));
      longer, more := longer + [At(s, w, p, true)], more + [CheckLock(w)];
    }
    CommitAt(s, w, p, q, HasReport(p.stage), choices, batchSize);
    WorksNext(longer, more, batchSize, w, start, At(s, w, p, HasReport(p.stage)), Commit(w, choices, true));
    longer, more := longer + [At(s, w, q, false)], more + [Commit(w, choices, true)];
  }

  lemma {:induction false} PathWorks(path: seq<Point>, n: nat, batchSize: nat, w: nat, s: State)
    returns (states: seq<State>, actions: seq<Action>)
    requires n < |path| && IsPath(path, s.originals, batchSize) && path[0] == Point(s.db, Holding) && w < |s.workers|
    ensures Works(states, actions, batchSize, w, At(s, w, Point(s.db, Holding), false), At(s, w, path[n], false))
    decreases n
  {
    if n == 0 {
      states, actions := [At(s, w, path[0], false)], [];
    } else {
      states, actions := PathWorks(path, n - 1, batchSize, w, s);
      assert Edge(path, n - 1, s.originals, batchSize);
      states, actions := MoveWorks(states, actions, batchSize, w, s, path[n - 1], path[n]);
    }
  }

  lemma WorkStep(s: State, w: nat, p: Point, checked: bool, a: Action, batchSize: nat) returns (q: Point, now: bool)
    requires w < |s.workers| && Enabled(At(s, w, p, checked), a) && WorksOn(a, w)
    ensures Step(At(s, w, p, checked), a, batchSize) == At(s, w, q, now)
    ensures p == q || Moves(p, q, s.originals, batchSize)
  {
    if a.CheckLock? {
      CheckAt(s, w, p, checked, batchSize);
      q, now := p, true;
    } else {
      var (db, stage) := Transact(p.db, p.stage, s.originals, batchSize, a.choices);
      q, now := Point(db, stage), false;
      CommitAt(s, w, p, q, checked, a.choices, batchSize);
    }
  }

  lemma {:induction false} WorkIsPath(states: seq<State>, actions: seq<Action>, batchSize: nat, w: nat, s: State,
                                      n: nat)
    returns (q: Point, checked: bool)
    requires IsSegment(states, actions, batchSize) && n <= |actions| && w < |s.workers|
    requires states[0] == At(s, w, Point(s.db, Holding), false)
    requires forall k: nat :: k < n ==> WorksOn(actions[k], w)
    ensures states[n] == At(s, w, q, checked) && Reaches(Point(s.db, Holding), q, s.originals, batchSize)
    decreases n
  {
    if n == 0 {
      q, checked := Point(s.db, Holding), false;
      ReachesItself(q, s.originals, batchSize);
    } else {
      var p, was := WorkIsPath(states, actions, batchSize, w, s, n - 1);
      assert StepAt(states, actions, batchSize, n - 1);
      q, checked := WorkStep(s, w, p, was, actions[n - 1], batchSize);
      if q != p {
        ReachesNext(Point(s.db, Holding), p, q, s.originals, batchSize);
      }
    }
  }

  // ---------------------------------------------------------------------
  // Whole cycles
  // ---------------------------------------------------------------------

  /** From the acquisition to the release, with nothing but checks and acknowledged
      transactions of the worker between them. */
  ghost predicate IsCycle(states: seq<State>, actions: seq<Action>, batchSize: nat, w: nat) {
    && IsSegment(states, actions, batchSize) && |actions| >= 2
    && actions[0] == Acquire(w) && actions[|actions| - 1] == Release(w)
    && forall k: nat :: 0 < k < |actions| - 1 ==> WorksOn(actions[k], w)
  }

  /** The state before a cycle with the database it leaves. */
  function AfterCycle(s: State, w: nat, db: Db): State
    requires w < |s.workers|
  {
    s.(db := db, workers := s.workers[w := IDLE], holder := None)
  }

  lemma Acquired(s: State, w: nat, batchSize: nat)
    requires Enabled(s, Acquire(w))
    ensures w < |s.workers| && Step(s, Acquire(w), batchSize) == At(s, w, Point(s.db, Holding), false)
  {
  }

  lemma Released(s: State, w: nat, p: Point, checked: bool, batchSize: nat)
    requires w < |s.workers| && p.stage.Done?
    ensures Enabled(At(s, w, p, checked), Release(w))
    ensures Step(At(s, w, p, checked), Release(w), batchSize) == AfterCycle(s, w, p.db)
  {
  }

  /** Where transactions lead from the acquired lock, a run gets by such a cycle. */
  lemma PathIsCycle(s: State, w: nat, db: Db, batchSize: nat) returns (states: seq<State>, actions: seq<Action>)
    requires Enabled(s, Acquire(w)) && Reaches(Point(s.db, Holding), Point(db, Done), s.originals, batchSize)
    ensures IsCycle(states, actions, batchSize, w)
    ensures states[0] == s && states[|actions|] == AfterCycle(s, w, db)
  {
    var path :| IsPath(path, s.originals, batchSize) && Joins(path, Point(s.db, Holding), Point(db, Done));
    var inner, work := PathWorks(path, |path| - 1, batchSize, w, s);
    Acquired(s, w, batchSize);
    SegmentCons(inner, work, batchSize, s, Acquire(w));
    Released(s, w, Point(db, Done), false, batchSize);
    SegmentSnoc([s] + inner, [Acquire(w)] + work, batchSize, Release(w));
    states, actions := [s] + inner + [AfterCycle(s, w, db)], [Acquire(w)] + work + [Release(w)];
    assert forall k: nat :: 0 < k < |actions| - 1 ==> actions[k] == work[k - 1];
  }

  lemma SegmentCons(states: seq<State>, actions: seq<Action>, batchSize: nat, s: State, a: Action)
    requires IsSegment(states, actions, batchSize) && Enabled(s, a) && states[0] == Step(s, a, batchSize)
    ensures IsSegment([s] + states, [a] + actions, batchSize)
  {
    forall k: nat | k < |[a] + actions|
      ensures StepAt([s] + states, [a] + actions, batchSize, k)
    {
      if k > 0 {
        StepMoved(states, actions, k - 1, [s] + states, [a] + actions, k, batchSize);
      }
    }
  }

  lemma SegmentTail(states: seq<State>, actions: seq<Action>, batchSize: nat)
    requires IsSegment(states, actions, batchSize) && actions != []
    ensures IsSegment(states[1..], actions[1..], batchSize)
  {
    forall k: nat | k < |actions[1..]|
      ensures StepAt(states[1..], actions[1..], batchSize, k)
    {
      StepMoved(states, actions, k + 1, states[1..], actions[1..], k, batchSize);
    }
  }

  /** And every such cycle of a run is a path of transactions. */
  lemma CycleIsPath(states: seq<State>, actions: seq<Action>, batchSize: nat, w: nat) returns (db: Db)
    requires IsCycle(states, actions, batchSize, w)
    ensures var s := states[0];
            && Enabled(s, Acquire(w)) && states[|actions|] == AfterCycle(s, w, db)
            && Reaches(Point(s.db, Holding), Point(db, Done), s.originals, batchSize)
  {
    var s, n := states[0], |actions|;
    assert StepAt(states, actions, batchSize, 0) && StepAt(states, actions, batchSize, n - 1);
    Acquired(s, w, batchSize);
    SegmentTail(states, actions, batchSize);
    assert forall k: nat :: k < n - 2 ==> actions[1..][k] == actions[k + 1];
    var q, checked := WorkIsPath(states[1..], actions[1..], batchSize, w, s, n - 2);
    assert states[1..][n - 2] == states[n - 1];
    Released(s, w, q, checked, batchSize);
    db := q.db;
  }

  // ---------------------------------------------------------------------
  // Reached states
  // ---------------------------------------------------------------------

  /** `locked`: only the lock holder commits in the run. */
  ghost predicate LeadsTo(states: seq<State>, actions: seq<Action>, s: State, batchSize: nat, locked: bool) {
    && IsRun(states, actions, batchSize) && states[|actions|] == s
    && (locked ==> forall k :: 0 <= k < |actions| ==> Exclusive(states[k], actions[k]))
  }

  ghost predicate Reachable(s: State, batchSize: nat, locked: bool) {
    exists states, actions :: LeadsTo(states, actions, s, batchSize, locked)
  }

  lemma StartReachable(s: State, batchSize: nat, locked: bool)
    requires Initial(s)
    ensures Reachable(s, batchSize, locked)
  {
    assert LeadsTo([s], [], s, batchSize, locked);
  }

  lemma StepReachable(s: State, a: Action, batchSize: nat, locked: bool)
    requires Reachable(s, batchSize, locked) && Enabled(s, a) && (locked ==> Exclusive(s, a))
    ensures Reachable(Step(s, a, batchSize), batchSize, locked)
  {
    var states, actions :| LeadsTo(states, actions, s, batchSize, locked);
    var next := Step(s, a, batchSize);
    SegmentSnoc(states, actions, batchSize, a);
    assert forall k :: 0 <= k < |actions| ==> (states + [next])[k] == states[k] && (actions + [a])[k] == actions[k];
    assert LeadsTo(states + [next], actions + [a], next, batchSize, locked);
  }

  lemma {:induction false} SegmentReachable(states: seq<State>, actions: seq<Action>, batchSize: nat, locked: bool,
                                            n: nat)
    requires IsSegment(states, actions, batchSize) && n <= |actions| && Reachable(states[0], batchSize, locked)
    requires locked ==> forall k: nat :: k < n ==> Exclusive(states[k], actions[k])
    ensures Reachable(states[n], batchSize, locked)
    decreases n
  {
    if n > 0 {
      SegmentReachable(states, actions, batchSize, locked, n - 1);
      assert StepAt(states, actions, batchSize, n - 1);
      StepReachable(states[n - 1], actions[n - 1], batchSize, locked);
    }
  }

  lemma CycleHolds(states: seq<State>, actions: seq<Action>, batchSize: nat, w: nat, k: nat)
    requires IsCycle(states, actions, batchSize, w) && k < |actions|
    ensures Exclusive(states[k], actions[k])
  {
    if 0 < k < |actions| - 1 {
      assert StepAt(states, actions, batchSize, 0);
      Acquired(states[0], w, batchSize);
      SegmentTail(states, actions, batchSize);
      assert forall j: nat :: j < k - 1 ==> actions[1..][j] == actions[j + 1];
      var q, checked := WorkIsPath(states[1..], actions[1..], batchSize, w, states[0], k - 1);
      assert states[1..][k - 1] == states[k];
    }
  }

  /** What a cycle without faults leaves is reached by a run. */
  lemma CycleReachable(s: State, w: nat, db: Db, batchSize: nat, locked: bool)
    requires Reachable(s, batchSize, locked) && Enabled(s, Acquire(w))
    requires Reaches(Point(s.db, Holding), Point(db, Done), s.originals, batchSize)
    ensures Reachable(AfterCycle(s, w, db), batchSize, locked)
  {
    var states, actions := PathIsCycle(s, w, db, batchSize);
    forall k: nat | k < |actions|
      ensures Exclusive(states[k], actions[k])
    {
      CycleHolds(states, actions, batchSize, w, k);
    }
    SegmentReachable(states, actions, batchSize, locked, |actions|);
  }
}
