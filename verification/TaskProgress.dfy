/**
 * Progress of the loop that executes an approved plan (backend/routers/agent.py):
 * how often it can run, and exactly when verified tasks carry it to the end.
 */
module TaskProgress {
  import opened Basics
  import opened AgentStateMachine
  import opened TaskDag
  import opened AgentRunModel
  import opened RunHistory

  // ------------------------------------------------------------ it ends

  /** How many of the first `n` tasks are not final. */
  function Unfinished(ts: seq<Task>, n: nat): nat
    requires n <= |ts|
  {
    if n == 0 then 0 else Unfinished(ts, n - 1) + if IsFinal(ts[n - 1].status) then 0 else 1
  }

  lemma {:induction false} UnfinishedDrops(a: seq<Task>, b: seq<Task>, k: nat, n: nat)
    requires |a| == |b| && n <= |a|
    requires forall j :: 0 <= j < n && IsFinal(a[j].status) ==> IsFinal(b[j].status)
    requires k < n ==> !IsFinal(a[k].status) && IsFinal(b[k].status)
    ensures Unfinished(b, n) + (if k < n then 1 else 0) <= Unfinished(a, n) <= n
  {
    if n > 0 {
      UnfinishedDrops(a, b, k, n - 1);
    }
  }

  /** The operation hands some task to the executor and gets a report. */
  ghost predicate GetsReport(r: RunRow, op: Op) {
    op.OpExecute? && !op.outcome.ExecutorRaised? && ReachesExecutor(r, op.current)
  }

  /** The tasks of `after` have the same length, with `drop` unfinished ones fewer or even less left. */
  predicate Progresses(r: RunRow, after: RunRow, drop: nat) {
    && r.plan.Some? && after.plan.Some?
    && var a, b := r.plan.value.tasks, after.plan.value.tasks;
       |a| == |b| && Unfinished(b, |b|) + drop <= Unfinished(a, |a|)
  }

  /** Every report, whatever it says, leaves fewer unfinished tasks, and no operation that keeps the plan adds any. */
  lemma ReportsRunOut(r: RunRow, op: Op)
    requires r.plan.Some? && !StoresPlan(r, op)
    ensures Progresses(r, Apply(r, op).row, if GetsReport(r, op) then 1 else 0)
  {
    var a := r.plan.value.tasks;
    SameTasks(r, op);
    var b := Apply(r, op).row.plan.value.tasks;
    forall j | 0 <= j < |a| ensures IsFinal(a[j].status) ==> IsFinal(b[j].status) {
      TasksMove(r, op, j);
    }
    var k := |a|;
    if GetsReport(r, op) {
      k := Started(a).value;
      TasksMove(r, op, k);
    }
    UnfinishedDrops(a, b, k, |a|);
  }

  lemma ReportsNext(rows: seq<RunRow>, ops: seq<Op>, n: nat)
    requires IsHistory(rows, ops) && n < |ops| && !StoresPlan(rows[n], ops[n])
    ensures ProgressAt(rows, ops, n)
  {
    if rows[n].plan.Some? {
      ReportsRunOut(rows[n], ops[n]);
    }
  }

  /** How many of the operations from `m` to `n` get a report from the executor. */
  ghost function Reports(rows: seq<RunRow>, ops: seq<Op>, m: nat, n: nat): nat
    requires m <= n <= |ops| < |rows|
  {
    if m == n then 0 else Reports(rows, ops, m, n - 1) + if GetsReport(rows[n - 1], ops[n - 1]) then 1 else 0
  }

  lemma {:induction false} ReportsAreFew(rows: seq<RunRow>, ops: seq<Op>, m: nat, n: nat)
    requires m <= n <= |ops| < |rows| && rows[m].plan.Some?
    requires forall k: nat :: m <= k < n ==> ProgressAt(rows, ops, k)
    ensures Progresses(rows[m], rows[n], Reports(rows, ops, m, n))
  {
    if m < n {
      ReportsAreFew(rows, ops, m, n - 1);
      assert ProgressAt(rows, ops, n - 1);
    }
  }

  ghost predicate ProgressAt(rows: seq<RunRow>, ops: seq<Op>, k: nat)
    requires k < |ops| < |rows|
  {
    rows[k].plan.Some? ==> Progresses(rows[k], rows[k + 1], if GetsReport(rows[k], ops[k]) then 1 else 0)
  }

  /** In every run, while a plan stays, the executor reports at most once per task of the plan. */
  lemma LoopIsShort(rows: seq<RunRow>, ops: seq<Op>, m: nat, n: nat)
    requires IsHistory(rows, ops) && m <= n <= |ops| && rows[m].plan.Some?
    requires forall k :: m <= k < n ==> !StoresPlan(rows[k], ops[k])
    ensures Reports(rows, ops, m, n) <= Unfinished(rows[m].plan.value.tasks, |rows[m].plan.value.tasks|)
    ensures Reports(rows, ops, m, n) <= |rows[m].plan.value.tasks|
  {
    var ts := rows[m].plan.value.tasks;
    forall k: nat | m <= k < n ensures ProgressAt(rows, ops, k) {
      ReportsNext(rows, ops, k);
    }
    ReportsAreFew(rows, ops, m, n);
    UnfinishedDrops(ts, ts, |ts|, |ts|);
  }

  // ---------------------------------------------------- it gets everywhere

  predicate DistinctTasks(ts: seq<Task>) {
    forall i, j :: 0 <= i < j < |ts| ==> ts[i].id != ts[j].id
  }

  /** No dependency is missing, and following dependencies goes down. */
  predicate Ordered(ts: seq<Task>, rank: seq<nat>) {
    |rank| == |ts| && forall i, d :: 0 <= i < |ts| && d in ts[i].deps ==> Below(ts, rank, i, d)
  }

  predicate Below(ts: seq<Task>, rank: seq<nat>, i: nat, d: string)
    requires i < |ts| == |rank|
  {
    Resolve(ts, d).Some? && rank[Resolve(ts, d).value] < rank[i]
  }

  predicate OnTrack(ts: seq<Task>) {
    forall i :: 0 <= i < |ts| ==> ts[i].status in {TaskStatus.Pending, TaskStatus.Ready, Passed}
  }

  predicate AllPassed(ts: seq<Task>) {
    forall i :: 0 <= i < |ts| ==> ts[i].status == Passed
  }

  lemma {:induction false} NeverDoomed(ts: seq<Task>, rank: seq<nat>, i: nat, n: nat)
    requires Ordered(ts, rank) && OnTrack(ts) && i < |ts|
    ensures !DoomedWithin(ts, i, n)
    decreases n
  {
    if DoomedWithin(ts, i, n) {
      var d :| d in ts[i].deps
               && (Dead(ts, d) || (n > 0 && Resolve(ts, d).Some? && DoomedWithin(ts, Resolve(ts, d).value, n - 1)));
      assert Below(ts, rank, i, d);
      if n > 0 {
        NeverDoomed(ts, rank, Resolve(ts, d).value, n - 1);
      }
    }
  }

  lemma SettledOnTrack(ts: seq<Task>, rank: seq<nat>)
    requires Ordered(ts, rank) && OnTrack(ts)
    ensures OnTrack(Settled(ts)) && Ordered(Settled(ts), rank)
    ensures forall i :: 0 <= i < |ts| ==> (Settled(ts)[i].status == Passed <==> ts[i].status == Passed)
  {
    var r := Settled(ts);
    forall i | 0 <= i < |ts|
      ensures r[i].status in {TaskStatus.Pending, TaskStatus.Ready, Passed} && r[i].deps == ts[i].deps && r[i].id == ts[i].id
      ensures r[i].status == Passed <==> ts[i].status == Passed
    {
      assert r[i] == SettledTask(ts, i);
      if Doomed(ts, i) {
        var n: nat :| DoomedWithin(ts, i, n);
        NeverDoomed(ts, rank, i, n);
      }
    }
    SameOrder(ts, r, rank);
  }

  lemma SameOrder(a: seq<Task>, b: seq<Task>, rank: seq<nat>)
    requires Ordered(a, rank) && SameShape(a, b)
    ensures Ordered(b, rank)
  {
    forall i, d | 0 <= i < |b| && d in b[i].deps ensures Below(b, rank, i, d) {
      assert Below(a, rank, i, d);
      ResolveShape(a, b, d);
    }
  }

  /** A task of least rank among those that have not passed. */
  lemma {:induction false} LeastLeft(ts: seq<Task>, rank: seq<nat>, n: nat) returns (k: nat)
    requires |rank| == |ts| && n <= |ts| && exists i :: 0 <= i < n && ts[i].status != Passed
    ensures k < n && ts[k].status != Passed
    ensures forall i :: 0 <= i < n && ts[i].status != Passed ==> rank[k] <= rank[i]
  {
    if exists i :: 0 <= i < n - 1 && ts[i].status != Passed {
      k := LeastLeft(ts, rank, n - 1);
      if ts[n - 1].status != Passed && rank[n - 1] < rank[k] {
        k := n - 1;
      }
    } else {
      k := n - 1;
    }
  }

  /** Something can be started as long as something is left. */
  lemma CanGoOn(ts: seq<Task>, rank: seq<nat>)
    requires Ordered(ts, rank) && OnTrack(ts) && DistinctTasks(ts) && !AllPassed(ts)
    ensures CanStart(ts)
  {
    var k := LeastLeft(ts, rank, |ts|);
    forall d | d in ts[k].deps ensures Met(ts, d) {
      assert Below(ts, rank, k, d);
    }
    BecomesReady(ts, rank, k);
    ReadyStarts(ts, k);
  }

  lemma BecomesReady(ts: seq<Task>, rank: seq<nat>, k: nat)
    requires Ordered(ts, rank) && OnTrack(ts) && k < |ts| && ts[k].status != Passed && AllMet(ts, k)
    ensures Settled(ts)[k].status == TaskStatus.Ready
  {
    assert Settled(ts)[k] == SettledTask(ts, k);
    if Doomed(ts, k) {
      var n: nat :| DoomedWithin(ts, k, n);
      NeverDoomed(ts, rank, k, n);
    }
  }

  lemma ReadyStarts(ts: seq<Task>, k: nat)
    requires DistinctTasks(ts) && k < |ts| && Settled(ts)[k].status == TaskStatus.Ready
    ensures CanStart(ts)
  {
    var r := Settled(ts);
    var next := NextReady(r);
    assert next.Some?;
    var found := FindTask(r, r[next.value].id);
    assert found.Some?;
    assert r[found.value].id == ts[found.value].id && r[next.value].id == ts[next.value].id;
  }

  /** How many of the first `n` tasks have passed. */
  function PassedCount(ts: seq<Task>, n: nat): nat
    requires n <= |ts|
  {
    if n == 0 then 0 else PassedCount(ts, n - 1) + if ts[n - 1].status == Passed then 1 else 0
  }

  lemma {:induction false} OneMorePassed(a: seq<Task>, b: seq<Task>, k: nat, n: nat)
    requires |a| == |b| && n <= |a|
    requires forall j :: 0 <= j < n ==> (b[j].status == Passed <==> a[j].status == Passed || j == k)
    requires k < n ==> a[k].status != Passed
    ensures PassedCount(b, n) == PassedCount(a, n) + if k < n then 1 else 0
  {
    if n > 0 {
      OneMorePassed(a, b, k, n - 1);
    }
  }

  lemma {:induction false} FullCount(ts: seq<Task>, n: nat)
    requires n <= |ts|
    ensures PassedCount(ts, n) <= n
    ensures PassedCount(ts, n) == n <==> forall i :: 0 <= i < n ==> ts[i].status == Passed
  {
    if n > 0 {
      FullCount(ts, n - 1);
    }
  }

  lemma {:induction false} NonePassed(ts: seq<Task>, n: nat)
    requires n <= |ts| && forall i :: 0 <= i < n ==> ts[i].status != Passed
    ensures PassedCount(ts, n) == 0
  {
    if n > 0 {
      NonePassed(ts, n - 1);
    }
  }

  /** One verified report: still on track, and exactly the started task has passed besides. */
  lemma VerifiedStep(ts: seq<Task>, rank: seq<nat>)
    requires Ordered(ts, rank) && OnTrack(ts) && DistinctTasks(ts) && CanStart(ts)
    ensures var after := AfterExecution(ts, Executed(true));
            && Ordered(after, rank) && OnTrack(after) && DistinctTasks(after)
            && PassedCount(after, |ts|) == PassedCount(ts, |ts|) + 1
  {
    var s, k := Settled(ts), Started(ts).value;
    SettledOnTrack(ts, rank);
    var t := s[k := s[k].(status := Passed)];
    SameOrder(s, t, rank);
    SettledOnTrack(t, rank);
    var after := AfterExecution(ts, Executed(true));
    assert after == Settled(t);
    OneMoreVerified(ts);
  }

  lemma OneMoreVerified(ts: seq<Task>)
    requires CanStart(ts)
    ensures var after := AfterExecution(ts, Executed(true));
            && (DistinctTasks(ts) ==> DistinctTasks(after))
            && PassedCount(after, |ts|) == PassedCount(ts, |ts|) + 1
  {
    var k, after := Started(ts).value, AfterExecution(ts, Executed(true));
    forall j | 0 <= j < |ts| ensures after[j].id == ts[j].id && (after[j].status == Passed <==> ts[j].status == Passed || j == k) {
      AfterExecutionMoves(ts, Executed(true), j);
    }
    AfterExecutionMoves(ts, Executed(true), k);
    OneMorePassed(ts, after, k, |ts|);
  }

  /** On the way, with `n` tasks passed. */
  predicate Good(ts: seq<Task>, rank: seq<nat>, n: nat) {
    Ordered(ts, rank) && OnTrack(ts) && DistinctTasks(ts) && PassedCount(ts, |ts|) == n
  }

  lemma GoodStep(ts: seq<Task>, rank: seq<nat>, n: nat)
    requires Good(ts, rank, n) && n < |ts|
    ensures CanStart(ts) && Good(AfterExecution(ts, Executed(true)), rank, n + 1)
  {
    FullCount(ts, |ts|);
    CanGoOn(ts, rank);
    VerifiedStep(ts, rank);
  }

  // ----------------------------------------------------------- repetition

  type Tasks = seq<Task>

  /** `n` steps from `x`, as long as a step can be taken. */
  ghost function Iterate(can: Tasks -> bool, step: Tasks -> Tasks, x: Tasks, n: nat): Option<Tasks> {
    if n == 0 then Some(x)
    else
      var before := Iterate(can, step, x, n - 1);
      if before.Some? && can(before.value) then Some(step(before.value)) else None
  }

  /** A measure that each step takes one further, and that allows a step before `bound`, is taken to `bound`. */
  lemma {:induction false} IterateReaches(
    can: Tasks -> bool, step: Tasks -> Tasks, x: Tasks, n: nat, good: (Tasks, nat) -> bool, bound: nat)
    requires good(x, 0) && n <= bound
    requires forall y, k: nat :: k < bound && good(y, k) ==> can(y) && good(step(y), k + 1)
    ensures Iterate(can, step, x, n).Some? && good(Iterate(can, step, x, n).value, n)
  {
    if n > 0 {
      IterateReaches(can, step, x, n - 1, good, bound);
      assert good(Iterate(can, step, x, n - 1).value, n - 1);
    }
  }

  lemma {:induction false} IterateKeeps(can: Tasks -> bool, step: Tasks -> Tasks, x: Tasks, n: nat, inv: Tasks -> bool)
    requires inv(x) && Iterate(can, step, x, n).Some?
    requires forall y :: inv(y) && can(y) ==> inv(step(y))
    ensures inv(Iterate(can, step, x, n).value)
  {
    if n > 0 {
      IterateKeeps(can, step, x, n - 1, inv);
    }
  }

  /** All the lists on the way. */
  ghost function Lists(can: Tasks -> bool, step: Tasks -> Tasks, x: Tasks, n: nat): (lists: seq<Tasks>)
    requires Iterate(can, step, x, n).Some?
    ensures |lists| == n + 1 && lists[0] == x && lists[n] == Iterate(can, step, x, n).value
    ensures forall i :: 0 <= i <= n ==> Iterate(can, step, x, i) == Some(lists[i])
  {
    if n == 0 then [x] else Lists(can, step, x, n - 1) + [Iterate(can, step, x, n).value]
  }

  lemma ListStep(can: Tasks -> bool, step: Tasks -> Tasks, x: Tasks, n: nat, i: nat)
    requires Iterate(can, step, x, n).Some? && i < n
    ensures var lists := Lists(can, step, x, n); can(lists[i]) && lists[i + 1] == step(lists[i])
  {
    var lists := Lists(can, step, x, n);
    assert Iterate(can, step, x, i) == Some(lists[i]) && Iterate(can, step, x, i + 1) == Some(lists[i + 1]);
  }

  /** A task can be started. */
  ghost function Can(): Tasks -> bool {
    (ts: Tasks) => CanStart(ts)
  }

  /** It is, and its report is a verified one. */
  ghost function Verified(): Tasks -> Tasks {
    (ts: Tasks) => if CanStart(ts) then AfterExecution(ts, Executed(true)) else ts
  }

  /** The task list after `n` verified reports, as long as something can be started each time. */
  ghost function AfterRuns(ts: Tasks, n: nat): Option<Tasks> {
    Iterate(Can(), Verified(), ts, n)
  }

  lemma RunsGoOn(ts: Tasks, rank: seq<nat>, n: nat)
    requires Good(ts, rank, 0) && n <= |ts|
    ensures AfterRuns(ts, n).Some? && |AfterRuns(ts, n).value| == |ts| && Good(AfterRuns(ts, n).value, rank, n)
  {
    var good := (y: Tasks, k: nat) => |y| == |ts| && Good(y, rank, k);
    forall y, k: nat | k < |ts| && good(y, k) ensures Can()(y) && good(Verified()(y), k + 1) {
      GoodStep(y, rank, k);
    }
    IterateReaches(Can(), Verified(), ts, n, good, |ts|);
  }

  // --------------------------------------------- and only under that condition

  /** What the invariant of the runs says of the lists on the way. */
  predicate Kept(ts: Tasks, after: Tasks) {
    SameShape(ts, after) && DepsRespected(after)
  }

  lemma StepKeeps(ts: Tasks, r: Tasks)
    requires Kept(ts, r) && CanStart(r)
    ensures Kept(ts, AfterExecution(r, Executed(true)))
  {
    var after := AfterExecution(r, Executed(true));
    ExecutionRespects(r, Executed(true));
    forall j | 0 <= j < |r| ensures after[j] == ts[j].(status := after[j].status) {
      AfterExecutionMoves(r, Executed(true), j);
    }
  }

  lemma RunsKeep(ts: Tasks, n: nat)
    requires DepsRespected(ts)
    ensures AfterRuns(ts, n).Some? ==> Kept(ts, AfterRuns(ts, n).value)
  {
    if AfterRuns(ts, n).Some? {
      var inv := (y: Tasks) => Kept(ts, y);
      forall y | inv(y) && Can()(y) ensures inv(Verified()(y)) {
        StepKeeps(ts, y);
      }
      IterateKeeps(Can(), Verified(), ts, n, inv);
    }
  }

  predicate PassedIn(ts: seq<Task>, j: nat) {
    j < |ts| && ts[j].status == Passed
  }

  /** What has passed stays so from list to list. */
  ghost predicate Grow(lists: seq<seq<Task>>) {
    forall i, k, j :: 0 <= i <= k < |lists| && PassedIn(lists[i], j) ==> PassedIn(lists[k], j)
  }

  /** How many of the first `n` lists do not have task `j` passed: where it passes, if it does. */
  function PassTime(lists: seq<seq<Task>>, j: nat, n: nat): nat
    requires n <= |lists|
  {
    if n == 0 then 0 else PassTime(lists, j, n - 1) + if PassedIn(lists[n - 1], j) then 0 else 1
  }

  lemma {:induction false} PassTimeMeaning(lists: seq<seq<Task>>, j: nat, i: nat, n: nat)
    requires Grow(lists) && i < n <= |lists|
    ensures PassedIn(lists[i], j) <==> PassTime(lists, j, n) <= i
    ensures PassTime(lists, j, n) <= n
    ensures PassTime(lists, j, n) == n || PassedIn(lists[n - 1], j)
  {
    if n > 1 {
      PassTimeMeaning(lists, j, if i < n - 1 then i else n - 2, n - 1);
      if PassedIn(lists[n - 2], j) {
        assert PassedIn(lists[n - 1], j);
      } else {
        assert PassTime(lists, j, n - 1) == n - 1;
      }
    }
  }

  /** From one list to the next a task passes only by being started, its dependencies having passed. */
  ghost predicate PassesFairly(a: seq<Task>, b: seq<Task>, ts: seq<Task>) {
    && (forall j :: PassedIn(a, j) ==> PassedIn(b, j))
    && forall j, d :: 0 <= j < |ts| && d in ts[j].deps && PassedIn(b, j) && !PassedIn(a, j) ==>
         Resolve(ts, d).Some? && PassedIn(a, Resolve(ts, d).value)
  }

  lemma StepPassesFairly(r: seq<Task>, ts: seq<Task>)
    requires CanStart(r) && DepsRespected(r) && SameShape(ts, r)
    ensures PassesFairly(r, AfterExecution(r, Executed(true)), ts)
  {
    var after := AfterExecution(r, Executed(true));
    ExecutionRespects(r, Executed(true));
    forall j | PassedIn(r, j) ensures PassedIn(after, j) {
      AfterExecutionMoves(r, Executed(true), j);
    }
    forall j, d | 0 <= j < |ts| && d in ts[j].deps && PassedIn(after, j) && !PassedIn(r, j)
      ensures Resolve(ts, d).Some? && PassedIn(r, Resolve(ts, d).value)
    {
      AfterExecutionMoves(r, Executed(true), j);
      ResolveShape(ts, r, d);
      assert Met(r, d);
    }
  }

  lemma ListsPassFairly(ts: Tasks, n: nat, i: nat)
    requires DepsRespected(ts) && i < n
    ensures AfterRuns(ts, n).Some? ==>
              var lists := Lists(Can(), Verified(), ts, n); PassesFairly(lists[i], lists[i + 1], ts)
  {
    if AfterRuns(ts, n).Some? {
      var lists := Lists(Can(), Verified(), ts, n);
      ListStep(Can(), Verified(), ts, n, i);
      assert AfterRuns(ts, i) == Some(lists[i]);
      RunsKeep(ts, i);
      StepPassesFairly(lists[i], ts);
    }
  }

  lemma {:induction false} FairlyGrow(lists: seq<seq<Task>>, ts: seq<Task>, i: nat, k: nat, j: nat)
    requires forall i :: 0 <= i < |lists| - 1 ==> PassesFairly(lists[i], lists[i + 1], ts)
    requires i <= k < |lists| && PassedIn(lists[i], j)
    ensures PassedIn(lists[k], j)
    decreases k - i
  {
    if i < k {
      assert PassesFairly(lists[i], lists[i + 1], ts);
      FairlyGrow(lists, ts, i + 1, k, j);
    }
  }

  /** The order of passing puts every task after its dependencies. */
  lemma PassOrder(lists: seq<seq<Task>>, ts: seq<Task>) returns (rank: seq<nat>)
    requires lists != [] && forall i :: 0 <= i < |lists| - 1 ==> PassesFairly(lists[i], lists[i + 1], ts)
    requires forall j :: 0 <= j < |ts| ==> !PassedIn(lists[0], j) && PassedIn(lists[|lists| - 1], j)
    ensures Ordered(ts, rank)
  {
    forall i, k, j | 0 <= i <= k < |lists| && PassedIn(lists[i], j) ensures PassedIn(lists[k], j) {
      FairlyGrow(lists, ts, i, k, j);
    }
    var n := |lists|;
    rank := seq(|ts|, j requires 0 <= j < |ts| => PassTime(lists, j, n));
    forall j, d | 0 <= j < |ts| && d in ts[j].deps ensures Below(ts, rank, j, d) {
      var p := PassTime(lists, j, n);
      PassTimeMeaning(lists, j, 0, n);
      PassTimeMeaning(lists, j, n - 1, n);
      PassTimeMeaning(lists, j, p, n);
      PassTimeMeaning(lists, j, p - 1, n);
      assert PassesFairly(lists[p - 1], lists[p - 1 + 1], ts);
      PassTimeMeaning(lists, Resolve(ts, d).value, p - 1, n);
    }
  }

  /**
   * From a plan none of whose tasks has been reported on, verified reports carry every task to PASSED, in
   * exactly as many steps as there are tasks, if and only if no dependency is missing and there is no cycle.
   */
  lemma AllPassIff(ts: seq<Task>)
    requires DistinctTasks(ts) && DepsRespected(ts)
    requires forall i :: 0 <= i < |ts| ==> ts[i].status in {TaskStatus.Pending, TaskStatus.Ready}
    ensures AfterRuns(ts, |ts|).Some? && AllPassed(AfterRuns(ts, |ts|).value) <==> exists rank: seq<nat> :: Ordered(ts, rank)
  {
    var n := |ts|;
    NonePassed(ts, n);
    if exists rank: seq<nat> :: Ordered(ts, rank) {
      var rank: seq<nat> :| Ordered(ts, rank);
      RunsGoOn(ts, rank, n);
      FullCount(AfterRuns(ts, n).value, n);
    }
    if AfterRuns(ts, n).Some? && AllPassed(AfterRuns(ts, n).value) {
      PassedInOrder(ts);
    }
  }

  lemma FairLists(lists: seq<Tasks>, ts: Tasks)
    requires lists != [] && lists[0] == ts && |lists[|lists| - 1]| == |ts| && AllPassed(lists[|lists| - 1])
    requires forall i :: 0 <= i < |ts| ==> ts[i].status != Passed
    requires forall i :: 0 <= i < |lists| - 1 ==> PassesFairly(lists[i], lists[i + 1], ts)
    ensures exists rank: seq<nat> :: Ordered(ts, rank)
  {
    forall j | 0 <= j < |ts| ensures !PassedIn(lists[0], j) && PassedIn(lists[|lists| - 1], j) {
      assert lists[0][j].status != Passed && lists[|lists| - 1][j].status == Passed;
    }
    var rank := PassOrder(lists, ts);
  }

  lemma PassedInOrder(ts: Tasks)
    requires DepsRespected(ts) && forall i :: 0 <= i < |ts| ==> ts[i].status != Passed
    ensures AfterRuns(ts, |ts|).Some? && AllPassed(AfterRuns(ts, |ts|).value) ==> exists rank: seq<nat> :: Ordered(ts, rank)
  {
    var n := |ts|;
    if AfterRuns(ts, n).Some? && AllPassed(AfterRuns(ts, n).value) {
      var lists := Lists(Can(), Verified(), ts, n);
      forall i | 0 <= i < |lists| - 1 ensures PassesFairly(lists[i], lists[i + 1], ts) {
        ListsPassFairly(ts, n, i);
      }
      RunsKeep(ts, n);
      FairLists(lists, ts);
    }
  }

  // ------------------------------------------------------------- the run

  /** The run with another task list. */
  function WithTasks(r: RunRow, ts: seq<Task>): RunRow
    requires r.plan.Some?
  {
    r.(plan := Some(r.plan.value.(tasks := ts)))
  }

  /** The run after `n` calls of execute_next_task whose reports are all verified. */
  ghost function AfterCalls(r: RunRow, current: string, n: nat): RunRow {
    if n == 0 then r else ExecuteNextTask(AfterCalls(r, current, n - 1), current, Executed(true)).row
  }

  /** The gate does not read the tasks. */
  lemma GateIgnoresTasks(r: RunRow, ts: seq<Task>, current: string)
    requires r.plan.Some?
    ensures Gate(WithTasks(r, ts), None, "", None, current) == Gate(r, None, "", None, current)
  {}

  lemma ExecuteOnce(r: RunRow, ts: seq<Task>, current: string)
    requires r.state == Executing && r.plan.Some? && Gate(WithTasks(r, ts), None, "", None, current) == Done && CanStart(ts)
    ensures ExecuteNextTask(WithTasks(r, ts), current, Executed(true)).row == WithTasks(r, AfterExecution(ts, Executed(true)))
  {}

  lemma OneCall(r: RunRow, current: string, m: nat, ts: Tasks)
    requires r.state == Executing && Gate(r, None, "", None, current) == Done && r.plan.Some?
    requires CanStart(ts)
    ensures AfterCalls(r, current, m) == WithTasks(r, ts) ==>
              AfterCalls(r, current, m + 1) == WithTasks(r, AfterExecution(ts, Executed(true)))
  {
    GateIgnoresTasks(r, ts, current);
    ExecuteOnce(r, ts, current);
  }

  /** An authorised run with verified reports only does what its task list does, behind the gate each time. */
  lemma RunFollowsTasks(r: RunRow, current: string, lists: seq<Tasks>, m: nat)
    requires r.state == Executing && Gate(r, None, "", None, current) == Done && r.plan.Some?
    requires m < |lists| && lists[0] == r.plan.value.tasks
    requires forall i :: 0 <= i < |lists| - 1 ==> CanStart(lists[i]) && lists[i + 1] == AfterExecution(lists[i], Executed(true))
    ensures AfterCalls(r, current, m) == WithTasks(r, lists[m])
  {
    var holds := (i: nat) => i < |lists| && AfterCalls(r, current, i) == WithTasks(r, lists[i]);
    forall i: nat | i < m && holds(i) ensures holds(i + 1) {
      assert CanStart(lists[i]) && lists[i + 1] == AfterExecution(lists[i], Executed(true));
      OneCall(r, current, i, lists[i]);
    }
    assert holds(0);
    Stays(holds, 0, m);
    assert holds(m);
  }

  lemma ListsFollow(ts: Tasks, n: nat, i: nat)
    requires i < n
    ensures AfterRuns(ts, n).Some? ==>
              var lists := Lists(Can(), Verified(), ts, n);
              CanStart(lists[i]) && lists[i + 1] == AfterExecution(lists[i], Executed(true))
  {
    if AfterRuns(ts, n).Some? {
      ListStep(Can(), Verified(), ts, n, i);
    }
  }

  lemma CallsFollowRuns(r: RunRow, current: string, n: nat, m: nat)
    requires r.state == Executing && Gate(r, None, "", None, current) == Done && r.plan.Some? && m <= n
    ensures AfterRuns(r.plan.value.tasks, n).Some? ==>
              && AfterRuns(r.plan.value.tasks, m).Some?
              && AfterCalls(r, current, m) == WithTasks(r, AfterRuns(r.plan.value.tasks, m).value)
  {
    var ts := r.plan.value.tasks;
    if AfterRuns(ts, n).None? {
      return;
    }
    var lists := Lists(Can(), Verified(), ts, n);
    forall i | 0 <= i < |lists| - 1 ensures CanStart(lists[i]) && lists[i + 1] == AfterExecution(lists[i], Executed(true)) {
      ListsFollow(ts, n, i);
    }
    RunFollowsTasks(r, current, lists, m);
  }

  /** Halfway: behind the gate, with something to start. */
  lemma StillReaches(r: RunRow, current: string, rank: seq<nat>, m: nat)
    requires r.state == Executing && Gate(r, None, "", None, current) == Done && r.plan.Some?
    requires Good(r.plan.value.tasks, rank, 0) && m < |r.plan.value.tasks|
    ensures ReachesExecutor(AfterCalls(r, current, m), current)
  {
    var ts := r.plan.value.tasks;
    RunsGoOn(ts, rank, m);
    CallsFollowRuns(r, current, m, m);
    var after := AfterRuns(ts, m).value;
    GoodStep(after, rank, m);
    GateIgnoresTasks(r, after, current);
    ReachesWith(r, after, current);
  }

  lemma ReachesWith(r: RunRow, ts: Tasks, current: string)
    requires r.state == Executing && r.plan.Some? && Gate(WithTasks(r, ts), None, "", None, current) == Done && CanStart(ts)
    ensures ReachesExecutor(WithTasks(r, ts), current)
  {}

  lemma NothingReady(ts: seq<Task>)
    requires AllPassed(ts)
    ensures Settled(ts) == ts && NextReady(ts) == None && !CanStart(ts)
  {
    assert forall i :: 0 <= i < |ts| ==> Settled(ts)[i] == SettledTask(ts, i) == ts[i];
    assert Settled(ts) == ts;
  }

  /**
   * The execution loop of an authorised run whose tasks have distinct ids, closed dependencies and no
   * cycle, under verified reports: each of the first |tasks| calls hands a task to the executor, after
   * them every task is PASSED, and the next call finds none and changes nothing.
   */
  lemma LoopFinishes(r: RunRow, current: string, rank: seq<nat>)
    requires r.state == Executing && Gate(r, None, "", None, current) == Done && r.plan.Some?
    requires DistinctTasks(r.plan.value.tasks) && Ordered(r.plan.value.tasks, rank)
    requires forall i :: 0 <= i < |r.plan.value.tasks| ==> r.plan.value.tasks[i].status in {TaskStatus.Pending, TaskStatus.Ready}
    ensures forall m :: 0 <= m < |r.plan.value.tasks| ==> ReachesExecutor(AfterCalls(r, current, m), current)
    ensures var last := AfterCalls(r, current, |r.plan.value.tasks|);
            && last.plan.Some? && last == WithTasks(r, last.plan.value.tasks)
            && |last.plan.value.tasks| == |r.plan.value.tasks| && AllPassed(last.plan.value.tasks)
            && ExecuteNextTask(last, current, Executed(true)) == Outcome(last, Done)
            && !ReachesExecutor(last, current)
  {
    var ts := r.plan.value.tasks;
    var n := |ts|;
    NonePassed(ts, n);
    forall m | 0 <= m < n ensures ReachesExecutor(AfterCalls(r, current, m), current) {
      StillReaches(r, current, rank, m);
    }
    RunsGoOn(ts, rank, n);
    var after := AfterRuns(ts, n).value;
    FullCount(after, n);
    CallsFollowRuns(r, current, n, n);
    NothingLeft(r, after, current);
  }

  lemma NothingLeft(r: RunRow, ts: seq<Task>, current: string)
    requires r.state == Executing && Gate(r, None, "", None, current) == Done && r.plan.Some? && AllPassed(ts)
    ensures ExecuteNextTask(WithTasks(r, ts), current, Executed(true)) == Outcome(WithTasks(r, ts), Done)
    ensures !ReachesExecutor(WithTasks(r, ts), current)
  {
    GateIgnoresTasks(r, ts, current);
    NothingReady(ts);
  }
}
