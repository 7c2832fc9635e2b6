/**
 * backend/agent/tasks/orchestrator.py: the dependency graph of a plan's tasks.
 * A plan is loaded from JSON, changed as a local copy and written back, so the
 * task list is a value that the methods reassign element by element.
 */
module TaskDag {
  import opened Basics

  /** PlanTaskStatus. */
  datatype TaskStatus =
    | Pending | Ready | Running | Verifying | Diagnosing | Repairing | Reverifying
    | Passed | Failed | Blocked | Skipped

  datatype Task = Task(id: string, step: int, status: TaskStatus, deps: seq<string>)

  /** What the executor and the verifier report for one task. */
  datatype ExecOutcome = ExecutorRaised | ExecutionFailed | Executed(verified: bool)

  /** `task_map[id]`: the dictionary keeps the last task that carries an id. */
  function Resolve(ts: seq<Task>, id: string): (r: Option<nat>)
    ensures r.Some? ==> r.value < |ts| && ts[r.value].id == id
                        && forall j :: r.value < j < |ts| ==> ts[j].id != id
    ensures r.None? ==> forall j :: 0 <= j < |ts| ==> ts[j].id != id
  {
    if ts == [] then None
    else if ts[|ts| - 1].id == id then Some(|ts| - 1)
    else Resolve(ts[..|ts| - 1], id)
  }

  /** `_find_task`: the first task that carries an id. */
  function FindTask(ts: seq<Task>, id: string): (r: Option<nat>)
    ensures r.Some? ==> r.value < |ts| && ts[r.value].id == id
                        && forall j :: 0 <= j < r.value ==> ts[j].id != id
    ensures r.None? ==> forall j :: 0 <= j < |ts| ==> ts[j].id != id
    decreases |ts|
  {
    if ts == [] then None
    else if ts[0].id == id then Some(0)
    else match FindTask(ts[1..], id)
         case None => None
         case Some(k) => Some(k + 1)
  }

  /** A dependency that can no longer be met: missing, or failed, blocked or skipped. */
  predicate Dead(ts: seq<Task>, dep: string) {
    match Resolve(ts, dep)
    case None => true
    case Some(k) => ts[k].status in {Failed, Blocked, Skipped}
  }

  predicate Met(ts: seq<Task>, dep: string) {
    match Resolve(ts, dep)
    case None => false
    case Some(k) => ts[k].status == Passed
  }

  predicate AllMet(ts: seq<Task>, i: nat)
    requires i < |ts|
  {
    forall d :: d in ts[i].deps ==> Met(ts, d)
  }

  /** From pending task `i`, at most `n` steps along pending tasks lead to a dead dependency. */
  ghost predicate DoomedWithin(ts: seq<Task>, i: nat, n: nat)
    requires i < |ts|
    decreases n
  {
    ts[i].status == Pending
    && exists d :: d in ts[i].deps
                   && (Dead(ts, d)
                       || (n > 0 && Resolve(ts, d).Some? && DoomedWithin(ts, Resolve(ts, d).value, n - 1)))
  }

  ghost predicate Doomed(ts: seq<Task>, i: nat)
    requires i < |ts|
  {
    exists n: nat :: DoomedWithin(ts, i, n)
  }

  /** What dependency evaluation means for one task, without any mention of passes or order. */
  ghost function SettledTask(ts: seq<Task>, i: nat): Task
    requires i < |ts|
  {
    if ts[i].status != Pending then ts[i]
    else if Doomed(ts, i) then ts[i].(status := Blocked)
    else if AllMet(ts, i) then ts[i].(status := Ready)
    else ts[i]
  }

  ghost function Settled(ts: seq<Task>): (r: seq<Task>)
    ensures |r| == |ts|
  {
    seq(|ts|, i requires 0 <= i < |ts| => SettledTask(ts, i))
  }

  /** Same tasks, statuses aside. */
  predicate SameShape(a: seq<Task>, b: seq<Task>) {
    |a| == |b| && forall i :: 0 <= i < |a| ==> a[i] == b[i].(status := a[i].status)
  }

  lemma {:induction false} ResolveShape(a: seq<Task>, b: seq<Task>, id: string)
    requires SameShape(a, b)
    ensures Resolve(a, id) == Resolve(b, id)
  {
    if a != [] && a[|a| - 1].id != id {
      ResolveShape(a[..|a| - 1], b[..|b| - 1], id);
    }
  }

  /** One pass has changed `r` from `ts` only as Settled allows. */
  ghost predicate Sound(ts: seq<Task>, r: seq<Task>) {
    SameShape(r, ts)
    && forall i :: 0 <= i < |ts| ==>
         || r[i].status == ts[i].status
         || (r[i].status == Blocked && Doomed(ts, i))
         || (r[i].status == Ready && ts[i].status == Pending && AllMet(ts, i))
  }

  lemma PassedStays(ts: seq<Task>, r: seq<Task>, d: string)
    requires Sound(ts, r)
    ensures Met(r, d) == Met(ts, d)
    ensures Dead(ts, d) ==> Dead(r, d)
  {
    ResolveShape(r, ts, d);
    if Resolve(ts, d).Some? {
      var k := Resolve(ts, d).value;
      assert Doomed(ts, k) ==> ts[k].status == Pending;
    }
  }

  /** A task that a pass blocks is doomed in the plan the passes started from. */
  lemma BlockIsDoom(ts: seq<Task>, r: seq<Task>, i: nat, d: string)
    requires Sound(ts, r) && i < |ts| && ts[i].status == Pending
    requires d in ts[i].deps && Dead(r, d)
    ensures Doomed(ts, i)
  {
    ResolveShape(r, ts, d);
    if Dead(ts, d) {
      assert DoomedWithin(ts, i, 0);
    } else {
      var k := Resolve(ts, d).value;
      var n: nat :| DoomedWithin(ts, k, n);
      assert DoomedWithin(ts, i, n + 1);
    }
  }

  lemma DoomIsNotMet(ts: seq<Task>, i: nat)
    requires i < |ts| && Doomed(ts, i)
    ensures !AllMet(ts, i)
  {
    var n: nat :| DoomedWithin(ts, i, n);
    var d :| d in ts[i].deps
             && (Dead(ts, d)
                 || (n > 0 && Resolve(ts, d).Some? && DoomedWithin(ts, Resolve(ts, d).value, n - 1)));
    assert !Met(ts, d);
  }

  /** Nothing left to do for task `i`. */
  ghost predicate Stable(r: seq<Task>, i: nat)
    requires i < |r|
  {
    r[i].status == Pending ==> !AllMet(r, i) && forall d :: d in r[i].deps ==> !Dead(r, d)
  }

  lemma {:induction false} StableBlocksDoomed(ts: seq<Task>, r: seq<Task>, i: nat, n: nat)
    requires Sound(ts, r) && i < |ts| && DoomedWithin(ts, i, n)
    requires forall j :: 0 <= j < |r| ==> Stable(r, j)
    ensures r[i].status == Blocked
    decreases n
  {
    assert DoomedWithin(ts, i, n) && Doomed(ts, i);
    DoomIsNotMet(ts, i);
    var d :| d in ts[i].deps
             && (Dead(ts, d)
                 || (n > 0 && Resolve(ts, d).Some? && DoomedWithin(ts, Resolve(ts, d).value, n - 1)));
    ResolveShape(r, ts, d);
    PassedStays(ts, r, d);
    if !Dead(ts, d) {
      StableBlocksDoomed(ts, r, Resolve(ts, d).value, n - 1);
    }
    assert Dead(r, d) && Stable(r, i);
  }

  lemma StableIsSettled(ts: seq<Task>, r: seq<Task>)
    requires Sound(ts, r)
    requires forall j :: 0 <= j < |r| ==> Stable(r, j)
    ensures r == Settled(ts)
  {
    forall i | 0 <= i < |ts| ensures r[i] == SettledTask(ts, i) {
      if Doomed(ts, i) {
        var n: nat :| DoomedWithin(ts, i, n);
        StableBlocksDoomed(ts, r, i, n);
      } else if ts[i].status == Pending {
        assert Stable(r, i);
        forall d ensures Met(r, d) == Met(ts, d) {
          PassedStays(ts, r, d);
        }
        assert r[i].deps == ts[i].deps;
        assert r[i].status == Pending ==> AllMet(r, i) == AllMet(ts, i);
      }
    }
  }

  /** The inner dependency loop, with its early exit on a dead dependency. */
  method ScanDependencies(ts: seq<Task>, deps: seq<string>) returns (hasFailed: bool, allPassed: bool)
    ensures hasFailed <==> exists d :: d in deps && Dead(ts, d)
    ensures allPassed <==> forall d :: d in deps ==> Met(ts, d)
  {
    hasFailed, allPassed := false, true;
    for k := 0 to |deps|
      invariant !hasFailed
      invariant forall j :: 0 <= j < k ==> !Dead(ts, deps[j])
      invariant allPassed <==> forall j :: 0 <= j < k ==> Met(ts, deps[j])
    {
      if Dead(ts, deps[k]) {
        hasFailed, allPassed := true, false;
        assert deps[k] in deps && !Met(ts, deps[k]);
        return;
      }
      if !Met(ts, deps[k]) {
        allPassed := false;
      }
    }
  }

  function PendingCount(ts: seq<Task>): nat {
    if ts == [] then 0
    else (if ts[0].status == Pending then 1 else 0) + PendingCount(ts[1..])
  }

  lemma {:induction false} PendingCountDrops(ts: seq<Task>, i: nat, t: Task)
    requires i < |ts| && ts[i].status == Pending && t.status != Pending
    ensures PendingCount(ts[i := t]) == PendingCount(ts) - 1
  {
    if i == 0 {
      assert ts[i := t][1..] == ts[1..];
    } else {
      assert ts[i := t][1..] == ts[1..][i - 1 := t];
      PendingCountDrops(ts[1..], i - 1, t);
    }
  }

  /** evaluate_dependencies: passes over the list until one changes nothing. */
  method EvaluateDependencies(ts: seq<Task>) returns (r: seq<Task>)
    ensures r == Settled(ts)
  {
    r := ts;
    var changed := true;
    while changed
      invariant Sound(ts, r)
      invariant !changed ==> forall j :: 0 <= j < |r| ==> Stable(r, j)
      decreases PendingCount(r), changed
    {
      changed := false;
      ghost var before := r;
      for i := 0 to |ts|
        invariant Sound(ts, r)
        invariant PendingCount(r) <= PendingCount(before)
        invariant changed ==> PendingCount(r) < PendingCount(before)
        invariant !changed ==> forall j :: 0 <= j < i ==> Stable(r, j)
      {
        r, changed := Visit(ts, r, i, changed);
      }
    }
    StableIsSettled(ts, r);
  }

  /** The body of the pass: what happens to task `i`. */
  method Visit(ghost ts: seq<Task>, r0: seq<Task>, i: nat, changed0: bool) returns (r: seq<Task>, changed: bool)
    requires Sound(ts, r0) && i < |r0|
    ensures Sound(ts, r)
    ensures changed == (changed0 || r != r0)
    ensures r != r0 ==> PendingCount(r) == PendingCount(r0) - 1
    ensures r == r0 ==> Stable(r, i)
  {
    r, changed := r0, changed0;
    if r[i].status == Pending {
      assert ts[i].status == Pending;
      var hasFailed, allPassed := ScanDependencies(r, r[i].deps);
      if |r[i].deps| != 0 && hasFailed {
        ghost var d :| d in r[i].deps && Dead(r, d);
        BlockIsDoom(ts, r, i, d);
        PendingCountDrops(r, i, r[i].(status := Blocked));
        r := r[i := r[i].(status := Blocked)];
        changed := true;
      } else if |r[i].deps| == 0 || allPassed {
        forall d ensures Met(r, d) == Met(ts, d) {
          PassedStays(ts, r, d);
        }
        assert r[i].deps == ts[i].deps;
        PendingCountDrops(r, i, r[i].(status := Ready));
        r := r[i := r[i].(status := Ready)];
        changed := true;
      }
    }
  }

  // ------------------------------------------------------------ selection

  /** The sort key (step_number, task_id). */
  predicate KeyLe(a: Task, b: Task) {
    a.step < b.step || (a.step == b.step && StrLe(a.id, b.id))
  }

  lemma KeyLeTransitive(a: Task, b: Task, c: Task)
    requires KeyLe(a, b) && KeyLe(b, c)
    ensures KeyLe(a, c)
  {
    if a.step == b.step == c.step {
      StrLeTransitive(a.id, b.id, c.id);
    }
  }

  /** The head of the stably sorted READY tasks. */
  function NextReady(ts: seq<Task>): (r: Option<nat>)
    ensures r.Some? ==> r.value < |ts| && ts[r.value].status == Ready
    ensures r.Some? ==> forall j :: 0 <= j < |ts| && ts[j].status == Ready ==>
                          KeyLe(ts[r.value], ts[j]) && (j < r.value ==> !KeyLe(ts[j], ts[r.value]))
    ensures r.None? ==> forall j :: 0 <= j < |ts| ==> ts[j].status != Ready
  {
    if ts == [] then None
    else
      var n := |ts| - 1;
      var rest := NextReady(ts[..n]);
      if ts[n].status != Ready then rest
      else if rest.None? then StrLeRefl(ts[n].id); Some(n)
      else
        StrLeRefl(ts[n].id);
        StrLeTotal(ts[rest.value].id, ts[n].id);
        NextReadyStep(ts, rest.value);
        if KeyLe(ts[rest.value], ts[n]) then rest else Some(n)
  }

  lemma NextReadyStep(ts: seq<Task>, k: nat)
    requires |ts| > 0 && k < |ts| - 1
    requires forall j :: 0 <= j < |ts| - 1 && ts[j].status == Ready ==> KeyLe(ts[k], ts[j])
    ensures !KeyLe(ts[k], ts[|ts| - 1]) ==>
              forall j :: 0 <= j < |ts| - 1 && ts[j].status == Ready ==>
                KeyLe(ts[|ts| - 1], ts[j]) && !KeyLe(ts[j], ts[|ts| - 1])
  {
    var z := ts[|ts| - 1];
    if !KeyLe(ts[k], z) {
      StrLeTotal(ts[k].id, z.id);
      forall j | 0 <= j < |ts| - 1 && ts[j].status == Ready
        ensures KeyLe(z, ts[j]) && !KeyLe(ts[j], z)
      {
        KeyLeTransitive(z, ts[k], ts[j]);
        if KeyLe(ts[j], z) {
          KeyLeTransitive(ts[k], ts[j], z);
        }
      }
    }
  }

  // ------------------------------------------------- running one task

  /** Index of the task that execute_next_task starts: select_next_task, then start_task by id. */
  ghost function Started(ts: seq<Task>): (r: Option<nat>)
    ensures r.Some? ==> r.value < |ts|
  {
    match NextReady(Settled(ts))
    case None => None
    case Some(k) => FindTask(Settled(ts), Settled(ts)[k].id)
  }

  /** start_task refuses a task that is not READY (only possible when two tasks share an id). */
  ghost predicate CanStart(ts: seq<Task>) {
    Started(ts).Some? && Settled(ts)[Started(ts).value].status == Ready
  }

  /** The task list that is written back after the executor and the verifier have reported. */
  ghost function AfterExecution(ts: seq<Task>, outcome: ExecOutcome): (r: seq<Task>)
    requires CanStart(ts) && !outcome.ExecutorRaised?
    ensures |r| == |ts|
  {
    var s := Settled(ts);
    var k := Started(ts).value;
    var verdict := if outcome == Executed(true) then Passed else Failed;
    Settled(s[k := s[k].(status := verdict)])
  }

  method SelectNextTask(ts: seq<Task>) returns (r: seq<Task>, next: Option<nat>)
    ensures r == Settled(ts) && next == NextReady(r)
  {
    r := EvaluateDependencies(ts);
    next := NextReady(r);
  }

  // ------------------------------------------------------------ safety

  /** A task that has left the waiting room has every dependency PASSED. */
  predicate DepsRespected(ts: seq<Task>) {
    forall i :: 0 <= i < |ts| && ts[i].status !in {Pending, Blocked, Skipped} ==> AllMet(ts, i)
  }

  lemma SettledKeepsPassed(ts: seq<Task>, d: string)
    ensures Met(Settled(ts), d) == Met(ts, d)
  {
    ResolveShape(Settled(ts), ts, d);
    if Resolve(ts, d).Some? {
      var k := Resolve(ts, d).value;
      assert Settled(ts)[k] == SettledTask(ts, k);
    }
  }

  lemma SettledRespects(ts: seq<Task>)
    requires DepsRespected(ts)
    ensures DepsRespected(Settled(ts))
  {
    forall i | 0 <= i < |ts| && Settled(ts)[i].status !in {Pending, Blocked, Skipped}
      ensures AllMet(Settled(ts), i)
    {
      assert Settled(ts)[i] == SettledTask(ts, i);
      forall d | d in ts[i].deps ensures Met(Settled(ts), d) {
        SettledKeepsPassed(ts, d);
      }
    }
  }

  /** Changing one unpassed task to anything keeps the others' dependencies met. */
  lemma UpdateRespects(ts: seq<Task>, i: nat, s: TaskStatus)
    requires DepsRespected(ts) && i < |ts| && ts[i].status != Passed
    requires s in {Pending, Blocked, Skipped} || AllMet(ts, i)
    ensures DepsRespected(ts[i := ts[i].(status := s)])
  {
    var r := ts[i := ts[i].(status := s)];
    forall j | 0 <= j < |r| && r[j].status !in {Pending, Blocked, Skipped}
      ensures AllMet(r, j)
    {
      forall d | d in r[j].deps ensures Met(r, d) {
        ResolveShape(r, ts, d);
        assert AllMet(ts, j) && Met(ts, d);
      }
    }
  }

  /** Whatever task reaches the executor, its dependencies have all passed, and this is kept. */
  lemma ExecutionRespects(ts: seq<Task>, outcome: ExecOutcome)
    requires DepsRespected(ts) && CanStart(ts)
    ensures forall d :: d in ts[Started(ts).value].deps ==> Met(ts, d)
    ensures !outcome.ExecutorRaised? ==> DepsRespected(AfterExecution(ts, outcome))
  {
    var s, k := Settled(ts), Started(ts).value;
    SettledRespects(ts);
    assert s[k] == SettledTask(ts, k) && AllMet(s, k);
    forall d | d in ts[k].deps ensures Met(ts, d) {
      SettledKeepsPassed(ts, d);
    }
    if !outcome.ExecutorRaised? {
      var verdict := if outcome == Executed(true) then Passed else Failed;
      UpdateRespects(s, k, verdict);
      SettledRespects(s[k := s[k].(status := verdict)]);
    }
  }

  /** Evaluating a settled list again changes nothing. */
  lemma SettledIdempotent(ts: seq<Task>)
    ensures Settled(Settled(ts)) == Settled(ts)
  {
    var r := Settled(ts);
    forall i | 0 <= i < |ts| ensures SettledTask(r, i) == r[i] {
      assert r[i] == SettledTask(ts, i);
      if r[i].status == Pending {
        assert !Doomed(ts, i) && !AllMet(ts, i);
        if Doomed(r, i) {
          var n: nat :| DoomedWithin(r, i, n);
          DoomCarriesBack(ts, i, n);
        }
        if AllMet(r, i) {
          forall d | d in ts[i].deps ensures Met(ts, d) {
            SettledKeepsPassed(ts, d);
          }
        }
      }
    }
  }

  lemma {:induction false} DoomCarriesBack(ts: seq<Task>, i: nat, n: nat)
    requires i < |ts| && DoomedWithin(Settled(ts), i, n)
    ensures Doomed(ts, i)
    decreases n
  {
    var r := Settled(ts);
    assert r[i] == SettledTask(ts, i);
    var d :| d in r[i].deps
             && (Dead(r, d)
                 || (n > 0 && Resolve(r, d).Some? && DoomedWithin(r, Resolve(r, d).value, n - 1)));
    ResolveShape(r, ts, d);
    if Dead(ts, d) {
      assert DoomedWithin(ts, i, 0);
    } else {
      var k := Resolve(ts, d).value;
      assert r[k] == SettledTask(ts, k);
      if !Dead(r, d) {
        DoomCarriesBack(ts, k, n - 1);
      }
      var m: nat :| DoomedWithin(ts, k, m);
      assert DoomedWithin(ts, i, m + 1);
    }
  }

  predicate IsFinal(s: TaskStatus) {
    s in {Passed, Failed, Blocked, Skipped}
  }

  /** The started task gets the verdict of the report; the others keep their status, or are settled from PENDING. */
  lemma AfterExecutionMoves(ts: seq<Task>, outcome: ExecOutcome, j: nat)
    requires CanStart(ts) && !outcome.ExecutorRaised? && j < |ts|
    ensures var before, after := ts[j], AfterExecution(ts, outcome)[j];
            && after.id == before.id && after.step == before.step && after.deps == before.deps
            && (j == Started(ts).value ==>
                  && before.status in {Pending, Ready}
                  && after.status == if outcome == Executed(true) then Passed else Failed)
            && (j != Started(ts).value && before.status != Pending ==> after == before)
            && (j != Started(ts).value && before.status == Pending ==> after.status in {Pending, Ready, Blocked})
  {
    var s, k := Settled(ts), Started(ts).value;
    var t := s[k := s[k].(status := if outcome == Executed(true) then Passed else Failed)];
    assert s[j] == SettledTask(ts, j) && s[k] == SettledTask(ts, k);
    assert Settled(t)[j] == SettledTask(t, j);
  }

  // ------------------------------------------- the same in terms of statuses

  /** Dependency `d` stands for task `k`, the last one that carries the id. */
  predicate Names(ts: seq<Task>, d: string, k: nat) {
    k < |ts| && ts[k].id == d && forall j :: k < j < |ts| ==> ts[j].id != d
  }

  /** Nothing will ever meet the dependency: no task has the id, or the one that has failed or is blocked or skipped. */
  predicate IsLost(ts: seq<Task>, d: string) {
    forall k :: 0 <= k < |ts| && Names(ts, d, k) ==> ts[k].status in {Failed, Blocked, Skipped}
  }

  predicate HasPassed(ts: seq<Task>, d: string) {
    exists k :: 0 <= k < |ts| && Names(ts, d, k) && ts[k].status == Passed
  }

  lemma DependenciesMean(ts: seq<Task>, d: string)
    ensures Dead(ts, d) <==> IsLost(ts, d)
    ensures Met(ts, d) <==> HasPassed(ts, d)
  {
    forall k | 0 <= k < |ts| ensures Names(ts, d, k) <==> Resolve(ts, d) == Some(k) {
      NamesOne(ts, d, k);
    }
  }

  lemma NamesOne(ts: seq<Task>, d: string, k: nat)
    requires k < |ts|
    ensures Names(ts, d, k) <==> Resolve(ts, d) == Some(k)
  {}

  /** Pending task `i` waits for pending task `k`. */
  predicate WaitsFor(ts: seq<Task>, i: nat, k: nat) {
    && i < |ts| && k < |ts| && ts[i].status == Pending && ts[k].status == Pending
    && exists d :: d in ts[i].deps && Names(ts, d, k)
  }

  /** Pending task `i` waits for something lost. */
  predicate HasLost(ts: seq<Task>, i: nat) {
    i < |ts| && ts[i].status == Pending && exists d :: d in ts[i].deps && IsLost(ts, d)
  }

  /** A chain of pending tasks, each waiting for the next, the last one for something lost. */
  predicate IsLostChain(ts: seq<Task>, chain: seq<nat>) {
    && chain != [] && HasLost(ts, chain[|chain| - 1])
    && forall j :: 0 <= j < |chain| - 1 ==> WaitsFor(ts, chain[j], chain[j + 1])
  }

  lemma {:induction false} DoomHasChain(ts: seq<Task>, i: nat, n: nat) returns (chain: seq<nat>)
    requires i < |ts| && DoomedWithin(ts, i, n)
    ensures IsLostChain(ts, chain) && chain[0] == i
    decreases n
  {
    var d :| d in ts[i].deps
             && (Dead(ts, d)
                 || (n > 0 && Resolve(ts, d).Some? && DoomedWithin(ts, Resolve(ts, d).value, n - 1)));
    DependenciesMean(ts, d);
    if Dead(ts, d) {
      chain := [i];
    } else {
      var k := Resolve(ts, d).value;
      NamesOne(ts, d, k);
      assert WaitsFor(ts, i, k);
      chain := DoomHasChain(ts, k, n - 1);
      LongerChain(ts, i, chain);
      chain := [i] + chain;
    }
  }

  lemma LongerChain(ts: seq<Task>, i: nat, rest: seq<nat>)
    requires IsLostChain(ts, rest) && WaitsFor(ts, i, rest[0])
    ensures IsLostChain(ts, [i] + rest)
  {
    var chain := [i] + rest;
    forall j | 0 <= j < |chain| - 1 ensures WaitsFor(ts, chain[j], chain[j + 1]) {
      if j > 0 {
        assert WaitsFor(ts, rest[j - 1], rest[j - 1 + 1]);
      }
    }
  }

  lemma ShorterChain(ts: seq<Task>, chain: seq<nat>)
    requires IsLostChain(ts, chain) && |chain| > 1
    ensures IsLostChain(ts, chain[1..]) && WaitsFor(ts, chain[0], chain[1])
  {
    var rest := chain[1..];
    forall j | 0 <= j < |rest| - 1 ensures WaitsFor(ts, rest[j], rest[j + 1]) {
      assert WaitsFor(ts, chain[j + 1], chain[j + 1 + 1]);
    }
    assert WaitsFor(ts, chain[0], chain[0 + 1]);
  }

  lemma {:induction false} ChainIsDoom(ts: seq<Task>, chain: seq<nat>)
    requires IsLostChain(ts, chain)
    ensures chain[0] < |ts| && DoomedWithin(ts, chain[0], |chain| - 1)
    decreases |chain|
  {
    if |chain| == 1 {
      LostIsDoom(ts, chain[0]);
    } else {
      ShorterChain(ts, chain);
      ChainIsDoom(ts, chain[1..]);
      WaitingIsDoom(ts, chain[0], chain[1], |chain| - 2);
    }
  }

  lemma LostIsDoom(ts: seq<Task>, i: nat)
    requires HasLost(ts, i)
    ensures DoomedWithin(ts, i, 0)
  {
    var d :| d in ts[i].deps && IsLost(ts, d);
    DependenciesMean(ts, d);
  }

  lemma WaitingIsDoom(ts: seq<Task>, i: nat, k: nat, n: nat)
    requires WaitsFor(ts, i, k) && DoomedWithin(ts, k, n)
    ensures DoomedWithin(ts, i, n + 1)
  {
    var d :| d in ts[i].deps && Names(ts, d, k);
    NamesOne(ts, d, k);
  }

  /**
   * Evaluation touches the statuses of PENDING tasks only: BLOCKED are exactly those from which a chain of
   * pending tasks leads to a lost dependency, READY exactly those whose dependencies have all passed.
   */
  lemma SettledMeans(ts: seq<Task>, i: nat)
    requires i < |ts|
    ensures var after := Settled(ts)[i];
            && after == ts[i].(status := after.status)
            && (ts[i].status != Pending ==> after == ts[i])
            && (ts[i].status == Pending ==>
                  && after.status in {Pending, Ready, Blocked}
                  && (after.status == Blocked <==> exists chain :: IsLostChain(ts, chain) && chain[0] == i)
                  && (after.status == Ready <==> forall d :: d in ts[i].deps ==> HasPassed(ts, d)))
  {
    assert Settled(ts)[i] == SettledTask(ts, i);
    forall d ensures Met(ts, d) <==> HasPassed(ts, d) {
      DependenciesMean(ts, d);
    }
    if Doomed(ts, i) {
      var n: nat :| DoomedWithin(ts, i, n);
      var chain := DoomHasChain(ts, i, n);
      DoomIsNotMet(ts, i);
    }
    if chain :| IsLostChain(ts, chain) && chain[0] == i {
      ChainIsDoom(ts, chain);
    }
  }

  /** Task `i` is READY and first by step number and then by id; among equals the first in the list. */
  predicate IsFirstReady(ts: seq<Task>, i: nat) {
    && i < |ts| && ts[i].status == Ready
    && forall j :: 0 <= j < |ts| && j != i && ts[j].status == Ready ==>
         || ts[i].step < ts[j].step
         || (ts[i].step == ts[j].step && ts[i].id != ts[j].id && StrLe(ts[i].id, ts[j].id))
         || (ts[i].step == ts[j].step && ts[i].id == ts[j].id && i < j)
  }

  lemma NextReadyMeans(ts: seq<Task>)
    ensures match NextReady(ts)
            case Some(i) => IsFirstReady(ts, i)
            case None => forall j :: 0 <= j < |ts| ==> ts[j].status != Ready
  {
    if NextReady(ts).Some? {
      var i := NextReady(ts).value;
      forall j | 0 <= j < |ts| && j != i && ts[j].status == Ready
        ensures ts[i].step < ts[j].step
                || (ts[i].step == ts[j].step && ts[i].id != ts[j].id && StrLe(ts[i].id, ts[j].id))
                || (ts[i].step == ts[j].step && ts[i].id == ts[j].id && i < j)
      {
        StrLeRefl(ts[i].id);
      }
    }
  }

  lemma FirstReadyIsUnique(ts: seq<Task>, i: nat, k: nat)
    requires IsFirstReady(ts, i) && IsFirstReady(ts, k)
    ensures i == k
  {
    if i != k && ts[i].id != ts[k].id && StrLe(ts[i].id, ts[k].id) && StrLe(ts[k].id, ts[i].id) {
      StrLeAntisymmetric(ts[i].id, ts[k].id);
    }
  }

  /** Task `i` is the first READY one, and `k` the first task that has its id. */
  predicate IsChosen(ts: seq<Task>, i: nat, k: nat) {
    IsFirstReady(ts, i) && k < |ts| && ts[k].id == ts[i].id && forall j :: 0 <= j < k ==> ts[j].id != ts[i].id
  }

  lemma ChosenIsUnique(ts: seq<Task>, i: nat, k: nat, m: nat, n: nat)
    requires IsChosen(ts, i, k) && IsChosen(ts, m, n)
    ensures k == n
  {
    FirstReadyIsUnique(ts, i, m);
  }

  /** That is the task that is started. */
  lemma StartedMeans(ts: seq<Task>)
    ensures match Started(ts)
            case None => forall j :: 0 <= j < |Settled(ts)| ==> Settled(ts)[j].status != Ready
            case Some(k) => exists i: nat :: IsChosen(Settled(ts), i, k)
  {
    var s := Settled(ts);
    NextReadyMeans(s);
    if Started(ts).Some? {
      assert IsChosen(s, NextReady(s).value, Started(ts).value);
    }
  }

  /** start_task accepts it only if it is READY itself. */
  ghost predicate IsHandedOver(ts: seq<Task>, k: nat) {
    k < |Settled(ts)| && Settled(ts)[k].status == Ready && exists i: nat :: IsChosen(Settled(ts), i, k)
  }

  lemma CanStartMeans(ts: seq<Task>)
    ensures CanStart(ts) ==> IsHandedOver(ts, Started(ts).value)
    ensures forall k: nat :: IsHandedOver(ts, k) ==> CanStart(ts) && Started(ts) == Some(k)
  {
    StartedMeans(ts);
    forall k: nat | IsHandedOver(ts, k) ensures CanStart(ts) && Started(ts) == Some(k) {
      var s := Settled(ts);
      var i: nat :| IsChosen(s, i, k);
      assert s[i].status == Ready;
      var m: nat :| IsChosen(s, m, Started(ts).value);
      ChosenIsUnique(s, i, k, m, Started(ts).value);
    }
  }

  /** A report is entered on the task that was started, and then everything is evaluated again. */
  lemma ReportIsSettled(ts: seq<Task>, outcome: ExecOutcome) returns (reported: seq<Task>)
    requires CanStart(ts) && !outcome.ExecutorRaised?
    ensures AfterExecution(ts, outcome) == Settled(reported) && |reported| == |ts|
    ensures forall j :: 0 <= j < |ts| ==>
              reported[j] == if Started(ts) == Some(j)
                             then ts[j].(status := if outcome.Executed? && outcome.verified then Passed else Failed)
                             else Settled(ts)[j]
  {
    var s, k := Settled(ts), Started(ts).value;
    reported := s[k := s[k].(status := if outcome == Executed(true) then Passed else Failed)];
    assert s[k] == SettledTask(ts, k);
  }
}
