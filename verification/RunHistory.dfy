/**
 * What holds over whole runs: any sequence of operations, in any order, on a
 * run that create_run has just created.
 */
module RunHistory {
  import opened Basics
  import opened AgentStateMachine
  import opened TaskDag
  import opened AgentRunModel
  import opened RunInvariants

  /** `rows[i]` is the run before operation `i`; `rows[|ops|]` is the run at the end. */
  ghost predicate IsHistory(rows: seq<RunRow>, ops: seq<Op>) {
    && |rows| == |ops| + 1
    && (exists u :: rows[0] == CreatedRun(u))
    && (forall i :: 0 <= i < |ops| ==> rows[i + 1] == Apply(rows[i], ops[i]).row)
    && (forall i :: 0 <= i < |ops| && PlansIn(ops[i]) ==>
          && ops[i].planner.id != "" && ops[i].planner.revision != ""
          && forall k :: 0 <= k < |ops[i].planner.tasks| ==>
               ops[i].planner.tasks[k].status == TaskStatus.Pending)
    // plan ids are freshly generated
    && (forall i, j :: 0 <= i < j < |ops| && PlansIn(ops[i]) && PlansIn(ops[j]) ==>
          ops[i].planner.id != ops[j].planner.id)
  }

  predicate PlansIn(op: Op) {
    op.OpCreatePlan? && op.planner.Planned?
  }

  /** The operation writes a newly synthesized plan into the run. */
  predicate StoresPlan(r: RunRow, op: Op) {
    && PlansIn(op) && !IsTerminal(r.state) && !Reuses(r, op.force)
    && (r.state in {Idle, Understanding, AwaitingApproval} ==> CanTransition(r.state, Planning))
  }

  /** approve_plan is called and turns the stored plan from READY_FOR_APPROVAL to APPROVED. */
  predicate ApprovesStoredPlan(r: RunRow, op: Op) {
    && op.OpApprovePlan? && !Foreign(r, op.user) && r.state == AwaitingApproval
    && r.plan.Some? && r.plan.value.status == PlanStatus.Ready
  }

  /** Every id in the run came from one of the first `n` operations. */
  ghost predicate IdsFromOps(r: RunRow, ops: seq<Op>, n: nat)
    requires n <= |ops|
  {
    forall id :: id in UsedIds(r) ==> exists i :: 0 <= i < n && PlansIn(ops[i]) && ops[i].planner.id == id
  }

  /** The operations that neither write, resolve nor request anything. */
  predicate IsQuiet(op: Op) {
    op.OpTransition? || op.OpStart? || op.OpExecute? || op.OpComplete? || op.OpCancel? || op.OpRecover?
  }

  /** The same plan with other tasks, or none before and after. */
  predicate SameButTasks(before: Option<Plan>, after: Option<Plan>) {
    match before
    case None => after.None?
    case Some(p) => after.Some? && after.value == p.(tasks := after.value.tasks)
  }

  /** Requests and history stay as they are, and of the plan at most its tasks change. */
  predicate OnlyTasksMove(r: RunRow, after: RunRow) {
    after.approvals == r.approvals && after.history == r.history && SameButTasks(r.plan, after.plan)
  }

  lemma QuietKeeps(r: RunRow, op: Op)
    requires IsQuiet(op)
    ensures OnlyTasksMove(r, Apply(r, op).row)
  {
    if op.OpStart? {
      StartIsQuiet(r, op.user, op.current);
    } else if op.OpExecute? {
      ExecuteIsQuiet(r, op.current, op.outcome);
    }
    var good := (after: RunRow) => OnlyTasksMove(r, after);
    ApplyCases(r, op, good);
    assert good(Apply(r, op).row);
  }

  lemma StartIsQuiet(r: RunRow, user: Option<int>, current: string)
    ensures OnlyTasksMove(r, StartExecution(r, user, current).row)
  {}

  lemma ExecuteIsQuiet(r: RunRow, current: string, outcome: ExecOutcome)
    ensures var after := ExecuteNextTask(r, current, outcome).row;
            OnlyTasksMove(r, after) && after.state == r.state && after.log == r.log
  {}

  lemma ResolveKeepsPlan(r: RunRow, k: nat, verdict: ApprovalStatus, now: int)
    ensures var after := ResolveAction(r, k, verdict, now).row;
            after.plan == r.plan && after.history == r.history
  {}

  /** The three things an operation can do to the history. */
  predicate HistoryMoves(r: RunRow, op: Op, h: seq<HistoryRow>) {
    || h == r.history
    || (r.plan.Some? && h == Marked(r.history, r.plan.value.id, HistoryStatus.Approved))
    || (r.plan.Some? && h == Marked(r.history, r.plan.value.id, HistoryStatus.Rejected))
    || (StoresPlan(r, op) && h == WithRowFor(r.history, NewPlan(r, op.planner)))
  }

  lemma HistoryStep(r: RunRow, op: Op)
    ensures HistoryMoves(r, op, Apply(r, op).row.history)
  {
    if op.OpCreatePlan? {
      CreateHistory(r, op);
    } else if op.OpApprovePlan? {
      ApproveHistory(r, op);
    } else if op.OpRejectPlan? {
      RejectHistory(r, op);
    } else {
      OthersKeepPlan(r, op);
    }
  }

  lemma OthersKeepPlan(r: RunRow, op: Op)
    requires !op.OpCreatePlan? && !op.OpApprovePlan? && !op.OpRejectPlan?
    ensures var after := Apply(r, op).row; SameButTasks(r.plan, after.plan) && after.history == r.history
  {
    if IsQuiet(op) {
      QuietKeeps(r, op);
    } else if op.OpApproveAction? {
      ResolveKeepsPlan(r, op.k, ApprovalStatus.Approved, op.now);
    } else if op.OpRejectAction? {
      ResolveKeepsPlan(r, op.k, ApprovalStatus.Rejected, op.now);
    }
  }

  lemma CreateHistory(r: RunRow, op: Op)
    requires op.OpCreatePlan?
    ensures HistoryMoves(r, op, CreatePlan(r, op.force, op.planner).row.history)
  {}

  lemma ApproveHistory(r: RunRow, op: Op)
    requires op.OpApprovePlan?
    ensures HistoryMoves(r, op, ApprovePlan(r, op.user, op.now).row.history)
  {}

  lemma RejectHistory(r: RunRow, op: Op)
    requires op.OpRejectPlan?
    ensures HistoryMoves(r, op, RejectPlan(r, op.user, op.now).row.history)
  {}

  function WithRowFor(h: seq<HistoryRow>, p: Plan): (r: seq<HistoryRow>)
    ensures |r| == |h| + 1 && r[|h|].planId == p.id
    ensures forall k :: 0 <= k < |h| ==> r[k].planId == h[k].planId
    ensures forall k :: 0 <= k < |h| && h[k].status == HistoryStatus.Superseded ==> r[k] == h[k]
  {
    Supersede(h + [HistoryRow(p.id, p.version, HistoryStatus.Ready, None)], p)
  }

  /** An operation keeps the rows it finds and appends at most one, for the plan it writes. */
  lemma ApplyAppends(r: RunRow, op: Op)
    ensures Appends(r, op, Apply(r, op).row.history)
  {
    HistoryStep(r, op);
    MovesAppend(r, op, Apply(r, op).row.history);
  }

  predicate Appends(r: RunRow, op: Op, h: seq<HistoryRow>) {
    && |h| >= |r.history|
    && (forall k :: 0 <= k < |r.history| ==> h[k].planId == r.history[k].planId)
    && (|h| > |r.history| ==> StoresPlan(r, op) && |h| == |r.history| + 1 && h[|r.history|].planId == op.planner.id)
  }

  lemma MovesAppend(r: RunRow, op: Op, h: seq<HistoryRow>)
    requires HistoryMoves(r, op, h)
    ensures Appends(r, op, h)
  {}

  lemma IdsOfAppended(r: RunRow, after: RunRow, id: string)
    requires |after.history| >= |r.history|
    requires forall k :: 0 <= k < |r.history| ==> after.history[k].planId == r.history[k].planId
    requires |after.history| > |r.history| ==>
               |after.history| == |r.history| + 1 && after.history[|r.history|].planId == id
    requires after.plan.Some? ==> after.plan.value.id == id || (r.plan.Some? && after.plan.value.id == r.plan.value.id)
    ensures UsedIds(after) <= UsedIds(r) + {id}
  {
    forall x | x in UsedIds(after) ensures x in UsedIds(r) || x == id {
      if !(after.plan.Some? && x == after.plan.value.id) {
        var k :| 0 <= k < |after.history| && after.history[k].planId == x;
        if k < |r.history| {
          assert r.history[k] in r.history;
        }
      }
    }
  }

  lemma ApplyIds(r: RunRow, op: Op)
    ensures UsedIds(Apply(r, op).row) <= UsedIds(r) + (if PlansIn(op) then {op.planner.id} else {})
  {
    ApplyAppends(r, op);
    StepProvenance(r, op);
    var after := Apply(r, op).row;
    if StoresPlan(r, op) {
      IdsOfAppended(r, after, op.planner.id);
    } else {
      assert after.history != [] ==> r.history[0] in r.history;
      if r.history != [] || r.plan.Some? {
        var id := if r.plan.Some? then r.plan.value.id else r.history[0].planId;
        assert id in UsedIds(r);
        IdsOfAppended(r, after, id);
      }
    }
  }

  lemma CoreAtFirst(rows: seq<RunRow>, ops: seq<Op>)
    requires IsHistory(rows, ops)
    ensures CoreAt(rows, ops, 0)
  {
    var u :| rows[0] == CreatedRun(u);
    CreatedRunIsOk(u);
    assert UsedIds(rows[0]) == {};
  }

  /** The plan that the next operation brings is fresh. */
  lemma OpIsOk(rows: seq<RunRow>, ops: seq<Op>, n: nat)
    requires IsHistory(rows, ops) && n < |ops| && IdsFromOps(rows[n], ops, n)
    ensures OpOk(rows[n], ops[n])
  {}

  lemma IdsNext(rows: seq<RunRow>, ops: seq<Op>, n: nat)
    requires IsHistory(rows, ops) && n < |ops| && IdsFromOps(rows[n], ops, n)
    ensures IdsFromOps(rows[n + 1], ops, n + 1)
  {
    ApplyIds(rows[n], ops[n]);
    var after := UsedIds(rows[n + 1]);
    forall id | id in after
      ensures exists i :: 0 <= i < n + 1 && PlansIn(ops[i]) && ops[i].planner.id == id
    {
      if id in UsedIds(rows[n]) {
        var i :| 0 <= i < n && PlansIn(ops[i]) && ops[i].planner.id == id;
      } else {
        assert PlansIn(ops[n]) && ops[n].planner.id == id;
      }
    }
  }

  lemma CoreNext(rows: seq<RunRow>, ops: seq<Op>, n: nat)
    requires IsHistory(rows, ops) && n < |ops| && CoreAt(rows, ops, n)
    ensures CoreAt(rows, ops, n + 1)
  {
    OpIsOk(rows, ops, n);
    IdsNext(rows, ops, n);
    ApplyKeepsCore(rows[n], ops[n]);
  }

  /** The core invariant holds at every reachable state. */
  lemma CoreAlways(rows: seq<RunRow>, ops: seq<Op>, n: nat)
    requires IsHistory(rows, ops) && n <= |ops|
    ensures Core(rows[n]) && IdsFromOps(rows[n], ops, n)
    ensures n < |ops| ==> OpOk(rows[n], ops[n])
  {
    CoreAtFirst(rows, ops);
    forall i: nat | i < n ensures CoreKept(rows, ops, i) {
      if CoreAt(rows, ops, i) {
        CoreNext(rows, ops, i);
      }
    }
    CoreUpTo(rows, ops, n);
    if n < |ops| {
      OpIsOk(rows, ops, n);
    }
  }

  lemma {:induction false} CoreUpTo(rows: seq<RunRow>, ops: seq<Op>, n: nat)
    requires n <= |ops| < |rows| && CoreAt(rows, ops, 0) && forall i: nat :: i < n ==> CoreKept(rows, ops, i)
    ensures CoreAt(rows, ops, n)
  {
    if n > 0 {
      CoreUpTo(rows, ops, n - 1);
      assert CoreKept(rows, ops, n - 1);
    }
  }

  ghost predicate CoreKept(rows: seq<RunRow>, ops: seq<Op>, n: nat)
    requires n < |ops| < |rows|
  {
    CoreAt(rows, ops, n) ==> CoreAt(rows, ops, n + 1)
  }

  ghost predicate CoreAt(rows: seq<RunRow>, ops: seq<Op>, n: nat)
    requires n <= |ops| < |rows|
  {
    Core(rows[n]) && IdsFromOps(rows[n], ops, n)
  }

  // ------------------------------------------------------------- the log

  /**
   * The audit log of a run is a walk from IDLE to its state, except for the two
   * endings that bypass transition_state, and it is short.
   */
  lemma LogAlways(rows: seq<RunRow>, ops: seq<Op>, n: nat)
    requires IsHistory(rows, ops) && n <= |ops|
    ensures LogOk(rows[n])
    ensures var log := rows[n].log;
            |log| <= 3 * Entries(log, AwaitingApproval) + 5 + (if LogEndsInRecovery(rows[n]) then 1 else 0)
    ensures rows[n].state == Completed && Entries(rows[n].log, Executing) == 0 ==>
              rows[n].log == [Transition(Idle, Understanding), Transition(Understanding, Completed)]
    ensures rows[n].status == Legacy(rows[n].state) && rows[n].completed == IsTerminal(rows[n].state)
  {
    CoreAlways(rows, ops, n);
    var log := rows[n].log;
    if LogEndsInRecovery(rows[n]) {
      WalkLength(log[..|log| - 1]);
    } else {
      WalkLength(log);
      if rows[n].state == Completed {
        CompletedWithoutExecuting(log);
      }
    }
  }

  /** The three shapes of a log exclude each other. */
  lemma LogShapesExclude(r: RunRow)
    ensures !(LogReachesState(r) && LogStopsAtCancel(r)) && !(LogReachesState(r) && LogEndsInRecovery(r))
    ensures !(LogStopsAtCancel(r) && LogEndsInRecovery(r))
  {
    if LogEndsInRecovery(r) {
      var init := r.log[..|r.log| - 1];
      assert r.log == init + [Transition(AgentState.Failed, AgentState.Failed)];
      WalkAppend(init, Transition(AgentState.Failed, AgentState.Failed));
    }
  }

  /** On an active run, cancellation and recovery are the only operations that break the walk. */
  lemma LogStep(r: RunRow, op: Op)
    requires Core(r) && OpOk(r, op) && !IsTerminal(r.state)
    ensures var after := Apply(r, op).row;
            if op == OpCancel then LogStopsAtCancel(after)
            else if op == OpRecover then LogEndsInRecovery(after)
            else LogReachesState(after)
  {
    ActiveLog(r);
    if op == OpCancel {
      CancelCuts(r);
    } else if op == OpRecover {
      RecoverCuts(r);
    } else {
      LogGrows(r, op);
      WalksOn(r, Apply(r, op).row);
    }
  }

  lemma CancelCuts(r: RunRow)
    requires LogReachesState(r) && !IsTerminal(r.state)
    ensures LogStopsAtCancel(CancelRun(r).row)
  {}

  lemma RecoverCuts(r: RunRow)
    requires LogReachesState(r) && !IsTerminal(r.state)
    ensures LogEndsInRecovery(Recover(r))
  {
    assert Recover(r).log[..|r.log|] == r.log;
  }

  lemma WalksOn(r: RunRow, after: RunRow)
    requires LogReachesState(r) && MovesAlong(r, after)
    ensures LogReachesState(after)
  {
    if after.log == r.log + [Transition(r.state, after.state)] {
      WalkAppend(r.log, Transition(r.state, after.state));
    } else if after.log != r.log {
      WalkAppend(r.log, Transition(r.state, Planning));
      WalkAppend(r.log + [Transition(r.state, Planning)], Transition(Planning, AwaitingApproval));
    }
  }

  /** Nothing, one transition, or the two transitions of replanning. */
  predicate MovesAlong(r: RunRow, after: RunRow) {
    || (after.log == r.log && after.state == r.state)
    || (after.log == r.log + [Transition(r.state, after.state)] && CanTransition(r.state, after.state))
    || (CanTransition(r.state, Planning) && after.state == AwaitingApproval
        && after.log == r.log + [Transition(r.state, Planning)] + [Transition(Planning, AwaitingApproval)])
  }

  /** Every other operation logs the transition it makes, or the two that replanning makes. */
  lemma LogGrows(r: RunRow, op: Op)
    requires !IsTerminal(r.state) && op != OpCancel && op != OpRecover
    ensures MovesAlong(r, Apply(r, op).row)
  {
    if op.OpCreatePlan? {
      CreateGrows(r, op.force, op.planner);
    } else if op.OpRejectPlan? {
      RejectGrows(r, op.user, op.now);
    }
    var good := (after: RunRow) => MovesAlong(r, after);
    ApplyCases(r, op, good);
    assert good(Apply(r, op).row);
  }

  lemma CreateGrows(r: RunRow, force: bool, p: Planner)
    requires !IsTerminal(r.state)
    ensures MovesAlong(r, CreatePlan(r, force, p).row)
  {}

  lemma RejectGrows(r: RunRow, user: Option<int>, now: int)
    ensures MovesAlong(r, RejectPlan(r, user, now).row)
  {}

  /** One of the first `n` operations ended the run by going around transition_state. */
  ghost predicate EndedBy(rows: seq<RunRow>, ops: seq<Op>, n: nat, op: Op)
    requires n <= |ops| < |rows|
  {
    exists i :: 0 <= i < n && !IsTerminal(rows[i].state) && ops[i] == op
  }

  lemma EndedByNext(rows: seq<RunRow>, ops: seq<Op>, n: nat, op: Op)
    requires n < |ops| < |rows|
    ensures EndedBy(rows, ops, n + 1, op) <==> EndedBy(rows, ops, n, op) || (!IsTerminal(rows[n].state) && ops[n] == op)
  {}

  /** Which of the three shapes the log has, given whether a cancellation or a recovery ended the run. */
  predicate LogShape(r: RunRow, cancelled: bool, recovered: bool) {
    && (LogReachesState(r) <==> !cancelled && !recovered)
    && (LogStopsAtCancel(r) <==> cancelled)
    && (LogEndsInRecovery(r) <==> recovered)
  }

  ghost predicate ShapeAt(rows: seq<RunRow>, ops: seq<Op>, n: nat)
    requires n <= |ops| < |rows|
  {
    LogShape(rows[n], EndedBy(rows, ops, n, OpCancel), EndedBy(rows, ops, n, OpRecover))
  }

  lemma LogShapeStep(r: RunRow, op: Op, cancelled: bool, recovered: bool)
    requires Core(r) && OpOk(r, op) && LogShape(r, cancelled, recovered)
    ensures var active := !IsTerminal(r.state);
            LogShape(Apply(r, op).row, cancelled || (active && op == OpCancel), recovered || (active && op == OpRecover))
  {
    if IsTerminal(r.state) {
      TerminalIsFinal(r, op);
    } else {
      ActiveLog(r);
      LogShapesExclude(r);
      LogStep(r, op);
      LogShapesExclude(Apply(r, op).row);
    }
  }

  lemma LogShapeAtFirst(rows: seq<RunRow>, ops: seq<Op>)
    requires IsHistory(rows, ops)
    ensures ShapeAt(rows, ops, 0)
  {
    var u :| rows[0] == CreatedRun(u);
    CreatedRunIsOk(u);
    LogShapesExclude(rows[0]);
    ActiveLog(rows[0]);
  }

  lemma LogShapeNext(rows: seq<RunRow>, ops: seq<Op>, n: nat)
    requires IsHistory(rows, ops) && n < |ops| && ShapeAt(rows, ops, n)
    ensures ShapeAt(rows, ops, n + 1)
  {
    CoreAlways(rows, ops, n);
    EndedByNext(rows, ops, n, OpCancel);
    EndedByNext(rows, ops, n, OpRecover);
    LogShapeStep(rows[n], ops[n], EndedBy(rows, ops, n, OpCancel), EndedBy(rows, ops, n, OpRecover));
  }

  lemma {:induction false} LogShapes(rows: seq<RunRow>, ops: seq<Op>, n: nat)
    requires IsHistory(rows, ops) && n <= |ops|
    ensures ShapeAt(rows, ops, n)
  {
    if n == 0 {
      LogShapeAtFirst(rows, ops);
    } else {
      LogShapes(rows, ops, n - 1);
      LogShapeNext(rows, ops, n - 1);
    }
  }

  /**
   * The log is a walk from IDLE to the state of the run exactly as long as neither a cancellation nor a
   * restart recovery has ended the run, and its other two shapes tell which of the two did.
   */
  lemma LogIsWalkUnlessCutOff(rows: seq<RunRow>, ops: seq<Op>, n: nat)
    requires IsHistory(rows, ops) && n <= |ops|
    ensures LogReachesState(rows[n]) <==> !EndedBy(rows, ops, n, OpCancel) && !EndedBy(rows, ops, n, OpRecover)
    ensures LogStopsAtCancel(rows[n]) <==> EndedBy(rows, ops, n, OpCancel)
    ensures LogEndsInRecovery(rows[n]) <==> EndedBy(rows, ops, n, OpRecover)
  {
    LogShapes(rows, ops, n);
  }

  // ---------------------------------------------------------- provenance

  /** What one operation may do to which plan is stored, and to its approval. */
  predicate Provenance(r: RunRow, op: Op, after: Option<Plan>) {
    if StoresPlan(r, op) then after == Some(NewPlan(r, op.planner))
    else
      && (after.Some? <==> r.plan.Some?)
      && (r.plan.Some? ==>
            var p, q := r.plan.value, after.value;
            && q.id == p.id && q.version == p.version && q.valid == p.valid && q.revision == p.revision
            && (q.status == PlanStatus.Approved && p.status != PlanStatus.Approved ==> ApprovesStoredPlan(r, op)))
  }

  /** No operation but a storing create_plan changes which plan is stored; only approve_plan approves. */
  lemma StepProvenance(r: RunRow, op: Op)
    ensures Provenance(r, op, Apply(r, op).row.plan)
  {
    if op.OpCreatePlan? {
      CreateProvenance(r, op);
    } else if op.OpApprovePlan? {
      ApproveProvenance(r, op);
    } else if op.OpRejectPlan? {
      RejectProvenance(r, op);
    } else {
      OthersKeepPlan(r, op);
    }
  }

  lemma CreateProvenance(r: RunRow, op: Op)
    requires op.OpCreatePlan?
    ensures Provenance(r, op, CreatePlan(r, op.force, op.planner).row.plan)
  {}

  lemma ApproveProvenance(r: RunRow, op: Op)
    requires op.OpApprovePlan?
    ensures Provenance(r, op, ApprovePlan(r, op.user, op.now).row.plan)
  {}

  lemma RejectProvenance(r: RunRow, op: Op)
    requires op.OpRejectPlan?
    ensures Provenance(r, op, RejectPlan(r, op.user, op.now).row.plan)
  {}

  lemma ProvenanceNext(rows: seq<RunRow>, ops: seq<Op>, i: nat)
    requires IsHistory(rows, ops) && i < |ops|
    ensures Provenance(rows[i], ops[i], rows[i + 1].plan)
  {
    StepProvenance(rows[i], ops[i]);
  }

  /** What holds now, did not at first, and only comes about by starting, was started last at some step. */
  lemma {:induction false} LastStart(now: nat -> bool, starts: nat -> bool, n: nat) returns (c: nat)
    requires now(n) && !now(0) && forall i: nat :: i < n && now(i + 1) ==> starts(i) || now(i)
    ensures c < n && starts(c) && forall k: nat :: c < k <= n ==> now(k)
    ensures forall k: nat :: c < k < n ==> !starts(k)
  {
    if starts(n - 1) {
      c := n - 1;
    } else {
      assert now(n - 1 + 1) && now(n - 1);
      c := LastStart(now, starts, n - 1);
    }
  }

  lemma NothingPlannedYet(rows: seq<RunRow>, ops: seq<Op>)
    requires IsHistory(rows, ops)
    ensures rows[0].plan.None?
  {
    var u :| rows[0] == CreatedRun(u);
  }

  /** The same plan, its status and tasks aside. */
  predicate Holds(r: RunRow, p: Plan) {
    r.plan.Some? && Binding(r.plan.value) == Binding(p) && r.plan.value.valid == p.valid
  }

  /** The stored plan was written by some create_plan, and none has written one since. */
  lemma StoredBy(rows: seq<RunRow>, ops: seq<Op>, n: nat) returns (c: nat)
    requires IsHistory(rows, ops) && n <= |ops| && rows[n].plan.Some?
    ensures c < n && StoresPlan(rows[c], ops[c])
    ensures forall k :: c < k < n ==> !StoresPlan(rows[k], ops[k])
    ensures var p, q := rows[n].plan.value, NewPlan(rows[c], ops[c].planner);
            p.id == q.id && p.version == q.version && p.valid == q.valid && p.revision == q.revision
  {
    var p := rows[n].plan.value;
    var now := (i: nat) => i < |rows| && Holds(rows[i], p);
    var starts := (i: nat) => i < |ops| && StoresPlan(rows[i], ops[i]);
    NothingPlannedYet(rows, ops);
    forall i: nat | i < n && now(i + 1) ensures starts(i) || now(i) {
      ProvenanceNext(rows, ops, i);
    }
    c := LastStart(now, starts, n);
    assert starts(c) && now(c + 1);
    ProvenanceNext(rows, ops, c);
    forall k: nat | c < k < n ensures !StoresPlan(rows[k], ops[k]) {
      assert !starts(k);
    }
  }

  /** An approved stored plan was approved by approve_plan after it was written. */
  lemma ApprovedBy(rows: seq<RunRow>, ops: seq<Op>, n: nat) returns (a: nat)
    requires IsHistory(rows, ops) && n <= |ops|
    requires rows[n].plan.Some? && rows[n].plan.value.status == PlanStatus.Approved
    ensures a < n && ApprovesStoredPlan(rows[a], ops[a])
    ensures rows[a].plan.value.id == rows[n].plan.value.id
    ensures rows[a].plan.value.version == rows[n].plan.value.version
    ensures forall k :: a <= k < n ==> !StoresPlan(rows[k], ops[k])
  {
    var p := rows[n].plan.value;
    var now := (i: nat) => i < |rows| && Holds(rows[i], p) && PlanApproved(rows[i]);
    var starts := (i: nat) => i < |ops| && ApprovesStoredPlan(rows[i], ops[i]) && Holds(rows[i], p);
    NothingPlannedYet(rows, ops);
    forall i: nat | i < n && now(i + 1) ensures starts(i) || now(i) {
      ProvenanceNext(rows, ops, i);
    }
    a := LastStart(now, starts, n);
    assert starts(a);
    forall k | a <= k < n ensures !StoresPlan(rows[k], ops[k]) {
      assert now(k + 1);
      ProvenanceNext(rows, ops, k);
    }
  }

  // -------------------------------------------------------------- safety

  /**
   * Whenever a task reaches the executor, the run is EXECUTING, the stored plan
   * is APPROVED and valid, its dependencies have passed, and approve_plan was
   * called on exactly this plan after it was written, with none written since.
   * This needs no assumption on who files approval requests.
   */
  lemma ExecutionIsAuthorized(rows: seq<RunRow>, ops: seq<Op>, n: nat)
    requires IsHistory(rows, ops) && n < |ops| && ops[n].OpExecute?
    requires ReachesExecutor(rows[n], ops[n].current)
    ensures var r := rows[n];
            && r.state == Executing && r.plan.Some?
            && r.plan.value.status == PlanStatus.Approved && r.plan.value.valid
            && var ts := r.plan.value.tasks;
               forall d :: d in ts[Started(ts).value].deps ==> HasPassed(ts, d)
    ensures exists c, a :: 0 <= c < a < n
              && StoresPlan(rows[c], ops[c]) && ops[c].planner.id == rows[n].plan.value.id
              && NextVersion(rows[c]) == rows[n].plan.value.version
              && ApprovesStoredPlan(rows[a], ops[a])
              && rows[a].plan.value.id == rows[n].plan.value.id
              && rows[a].plan.value.version == rows[n].plan.value.version
              && forall k :: c < k < n ==> !StoresPlan(rows[k], ops[k])
  {
    var r := rows[n];
    GateMeans(r, None, "", None, ops[n].current);
    CoreAlways(rows, ops, n);
    var ts := r.plan.value.tasks;
    ExecutionRespects(ts, ops[n].outcome);
    forall d ensures Met(ts, d) <==> HasPassed(ts, d) {
      DependenciesMean(ts, d);
    }
    var c := StoredBy(rows, ops, n);
    var a := ApprovedBy(rows, ops, n);
  }

  /** A history goes on with any operation whose plan, if it brings one, is new. */
  lemma HistoryGoesOn(rows: seq<RunRow>, ops: seq<Op>, op: Op, next: RunRow)
      returns (rows': seq<RunRow>, ops': seq<Op>)
    requires IsHistory(rows, ops) && next == Apply(rows[|ops|], op).row
    requires PlansIn(op) ==>
               && op.planner.id != "" && op.planner.revision != ""
               && (forall k :: 0 <= k < |op.planner.tasks| ==> op.planner.tasks[k].status == TaskStatus.Pending)
               && forall i :: 0 <= i < |ops| && PlansIn(ops[i]) ==> ops[i].planner.id != op.planner.id
    ensures IsHistory(rows', ops') && ops' == ops + [op] && rows' == rows + [next]
  {
    rows', ops' := rows + [next], ops + [op];
    assert rows'[0] == rows[0];
    forall i | 0 <= i < |ops'| ensures rows'[i + 1] == Apply(rows'[i], ops'[i]).row {
      if i < |ops| {
        assert rows'[i] == rows[i] && rows'[i + 1] == rows[i + 1] && ops'[i] == ops[i];
      }
    }
  }

  /** It goes on with any operation that brings no plan. */
  lemma HistoryGoesOnWith(rows: seq<RunRow>, ops: seq<Op>, op: Op, next: RunRow)
      returns (rows': seq<RunRow>, ops': seq<Op>)
    requires IsHistory(rows, ops) && next == Apply(rows[|ops|], op).row && !PlansIn(op)
    ensures IsHistory(rows', ops') && ops' == ops + [op] && rows' == rows + [next]
  {
    rows', ops' := HistoryGoesOn(rows, ops, op, next);
  }

  function DemoPlanner(): Planner {
    Planned("plan_1", true, "sha", [Task("task-1", 1, TaskStatus.Pending, [])])
  }

  /** A run with one plan that nobody has resolved. */
  function DemoPlanned(): RunRow {
    CreatePlan(CreatedRun(None), false, DemoPlanner()).row
  }

  lemma DemoPlannedIs()
    ensures var r, p := DemoPlanned(), NewPlan(CreatedRun(None), DemoPlanner());
            && r.state == AwaitingApproval && r.plan == Some(p) && r.userId == None
            && r.approvals == [Approval(PlanApproval, ApprovalStatus.Pending, Binding(p), 0)]
  {}

  lemma DemoHistory() returns (rows: seq<RunRow>, ops: seq<Op>)
    ensures IsHistory(rows, ops) && |ops| == 1 && rows[1] == DemoPlanned() && ops == [OpCreatePlan(false, DemoPlanner())]
  {
    rows, ops := [CreatedRun(None), DemoPlanned()], [OpCreatePlan(false, DemoPlanner())];
  }

  lemma DemoResumed() returns (next: RunRow)
    ensures next == ResolveAction(DemoPlanned(), 0, ApprovalStatus.Approved, 7).row
    ensures next.state == Executing && next.plan.Some? && next.plan.value.status == PlanStatus.Ready
    ensures forall current: string :: !ReachesExecutor(next, current)
  {
    next := ResolveAction(DemoPlanned(), 0, ApprovalStatus.Approved, 7).row;
    DemoPlannedIs();
    LastPendingResumes(DemoPlanned(), 0, 7);
    forall current: string ensures !ReachesExecutor(next, current) {
      UnapprovedIsHeld(next, current);
    }
  }

  /** No task of an unapproved plan reaches the executor. */
  lemma UnapprovedIsHeld(r: RunRow, current: string)
    requires !PlanApproved(r)
    ensures !ReachesExecutor(r, current)
  {}

  lemma ApproveActionIs(r: RunRow, k: nat, now: int)
    ensures Apply(r, OpApproveAction(k, now)) == ResolveAction(r, k, ApprovalStatus.Approved, now)
  {}

  /** EXECUTING does not imply approval: approve_action on the plan's record resumes the run by itself. */
  lemma ExecutingWithoutApproval() returns (rows: seq<RunRow>, ops: seq<Op>)
    ensures IsHistory(rows, ops) && forall i :: 0 <= i < |ops| ==> !FilesPlanApproval(ops[i])
    ensures rows[|ops|].state == Executing && rows[|ops|].plan.Some? && rows[|ops|].plan.value.status == PlanStatus.Ready
    ensures forall current: string :: !ReachesExecutor(rows[|ops|], current)
  {
    rows, ops := DemoHistory();
    var next := DemoResumed();
    ApproveActionIs(DemoPlanned(), 0, 7);
    rows, ops := HistoryGoesOnWith(rows, ops, OpApproveAction(0, 7), next);
  }

  predicate PlanApproved(r: RunRow) {
    r.plan.Some? && r.plan.value.status == PlanStatus.Approved
  }

  predicate ExecutesUnapproved(r: RunRow) {
    r.state == Executing && !PlanApproved(r)
  }

  /** Request `k` is the only one that is pending. */
  predicate OnlyPending(approvals: seq<Approval>, k: nat) {
    && k < |approvals| && approvals[k].status == ApprovalStatus.Pending
    && forall j :: 0 <= j < |approvals| && j != k ==> approvals[j].status != ApprovalStatus.Pending
  }

  /**
   * The three ways around the gate: an explicit transition, the resolution of the last pending request
   * of a waiting run, and storing a new plan while executing.
   */
  predicate BypassesGate(r: RunRow, op: Op) {
    match op
    case OpTransition(to) => to == Executing && CanTransition(r.state, Executing) && !PlanApproved(r)
    case OpApproveAction(k, _) => r.state == AwaitingApproval && OnlyPending(r.approvals, k) && !PlanApproved(r)
    case OpRejectAction(k, _) => r.state == AwaitingApproval && OnlyPending(r.approvals, k) && !PlanApproved(r)
    case OpCreatePlan(_, _) => r.state == Executing && StoresPlan(r, op)
    case _ => false
  }

  lemma ResolveBypasses(r: RunRow, k: nat, verdict: ApprovalStatus, now: int)
    requires verdict != ApprovalStatus.Pending && r.state != Executing
    ensures var after := ResolveAction(r, k, verdict, now).row;
            after.plan == r.plan && (after.state == Executing <==> r.state == AwaitingApproval && OnlyPending(r.approvals, k))
  {
    if k < |r.approvals| && r.approvals[k].status == ApprovalStatus.Pending {
      var resolved := r.approvals[k := Resolved(r.approvals[k], verdict, now)];
      assert forall j :: 0 <= j < |resolved| && j != k ==> resolved[j] == r.approvals[j];
      if HasPending(resolved) {
        var j :| 0 <= j < |resolved| && resolved[j].status == ApprovalStatus.Pending;
        assert j != k && r.approvals[j].status == ApprovalStatus.Pending;
      }
    }
  }

  /** One operation: EXECUTING without approval begins exactly by a bypass, and lasts while EXECUTING lasts. */
  lemma BypassStep(r: RunRow, op: Op)
    ensures ExecutesUnapproved(Apply(r, op).row) <==>
              BypassesGate(r, op) || (ExecutesUnapproved(r) && Apply(r, op).row.state == Executing)
  {
    if op.OpApproveAction? && r.state != Executing {
      ResolveBypasses(r, op.k, ApprovalStatus.Approved, op.now);
    } else if op.OpRejectAction? && r.state != Executing {
      ResolveBypasses(r, op.k, ApprovalStatus.Rejected, op.now);
    } else if op.OpStart? {
      StartIsGated(r, op);
    } else if op.OpExecute? {
      ExecuteIsQuiet(r, op.current, op.outcome);
    } else if op.OpCreatePlan? {
      CreateBypasses(r, op);
    }
    var good := (after: RunRow) => BypassedBy(r, op, after);
    ApplyCases(r, op, good);
    assert good(Apply(r, op).row);
  }

  predicate BypassedBy(r: RunRow, op: Op, after: RunRow) {
    ExecutesUnapproved(after) <==> BypassesGate(r, op) || (ExecutesUnapproved(r) && after.state == Executing)
  }

  lemma CreateBypasses(r: RunRow, op: Op)
    requires op.OpCreatePlan?
    ensures BypassedBy(r, op, CreatePlan(r, op.force, op.planner).row)
  {}

  lemma StartIsGated(r: RunRow, op: Op)
    requires op.OpStart?
    ensures BypassedBy(r, op, StartExecution(r, op.user, op.current).row)
  {
    if r.state == AwaitingApproval && Gate(r, op.user, "", None, op.current) == Done {
      GateMeans(r, op.user, "", None, op.current);
    }
  }

  /** A bypass among the first `n` operations, and EXECUTING ever since. */
  ghost predicate SinceBypass(rows: seq<RunRow>, ops: seq<Op>, n: nat)
    requires n <= |ops| < |rows|
  {
    exists i :: 0 <= i < n && BypassesGate(rows[i], ops[i]) && forall m :: i < m <= n ==> rows[m].state == Executing
  }

  lemma SinceBypassStep(rows: seq<RunRow>, ops: seq<Op>, n: nat)
    requires 0 < n <= |ops| < |rows|
    ensures SinceBypass(rows, ops, n) <==>
              rows[n].state == Executing && (BypassesGate(rows[n - 1], ops[n - 1]) || SinceBypass(rows, ops, n - 1))
  {
    if SinceBypass(rows, ops, n - 1) && rows[n].state == Executing {
      var i :| 0 <= i < n - 1 && BypassesGate(rows[i], ops[i]) && forall m :: i < m <= n - 1 ==> rows[m].state == Executing;
      assert forall m :: i < m <= n ==> rows[m].state == Executing;
    }
  }

  lemma UnapprovedNext(rows: seq<RunRow>, ops: seq<Op>, n: nat)
    requires IsHistory(rows, ops) && n < |ops|
    ensures ExecutesUnapproved(rows[n + 1]) <==>
              rows[n + 1].state == Executing && (BypassesGate(rows[n], ops[n]) || ExecutesUnapproved(rows[n]))
  {
    BypassStep(rows[n], ops[n]);
  }

  /** In a history: a run executes an unapproved plan exactly when it has not left EXECUTING since a bypass. */
  lemma {:induction false} UnapprovedExecutionIff(rows: seq<RunRow>, ops: seq<Op>, n: nat)
    requires IsHistory(rows, ops) && n <= |ops|
    ensures ExecutesUnapproved(rows[n]) <==> SinceBypass(rows, ops, n)
  {
    if n == 0 {
      var u :| rows[0] == CreatedRun(u);
    } else {
      UnapprovedExecutionIff(rows, ops, n - 1);
      UnapprovedNext(rows, ops, n - 1);
      SinceBypassStep(rows, ops, n);
    }
  }

  /** Approving the only pending request of a paused run resumes it. */
  lemma LastPendingResumes(r: RunRow, k: nat, now: int)
    requires r.state == AwaitingApproval && k < |r.approvals| && r.approvals[k].status == ApprovalStatus.Pending
    requires forall j :: 0 <= j < |r.approvals| && j != k ==> r.approvals[j].status != ApprovalStatus.Pending
    ensures var after := ResolveAction(r, k, ApprovalStatus.Approved, now).row;
            && after.state == Executing && after.plan == r.plan && after.userId == r.userId
            && after.approvals == r.approvals[k := Resolved(r.approvals[k], ApprovalStatus.Approved, now)]
  {}

  lemma OneFreshTaskStarts()
    ensures CanStart(DemoPlanner().tasks)
  {
    var ts := DemoPlanner().tasks;
    assert forall n: nat :: !DoomedWithin(ts, 0, n);
    assert Settled(ts)[0] == SettledTask(ts, 0) == ts[0].(status := TaskStatus.Ready);
    assert NextReady(Settled(ts)) == Some(0);
    assert FindTask(Settled(ts), "task-1") == Some(0);
  }

  /** create_plan names IDLE among the states it plans from, but the table has no such edge. */
  lemma CreatePlanFromIdle(r: RunRow, force: bool, p: Planner)
    ensures CreatePlan(r, force, p) == Outcome(r, Refused(InvalidTransition)) <==> r.state == Idle
  {}

  // --------------------------------------------------- the life of a task

  /** The operation hands task `j` of the stored plan to the executor and gets a report. */
  ghost predicate Runs(r: RunRow, op: Op, j: nat) {
    && op.OpExecute? && !op.outcome.ExecutorRaised?
    && ReachesExecutor(r, op.current) && Started(r.plan.value.tasks) == Some(j)
  }

  function StatusAfter(op: Op): TaskStatus
    requires op.OpExecute?
  {
    if op.outcome == Executed(true) then Passed else TaskStatus.Failed
  }

  /** Where a task is not reported on, nothing changes. */
  lemma ExecuteIs(r: RunRow, current: string, outcome: ExecOutcome)
    ensures var after := ExecuteNextTask(r, current, outcome).row;
            if ReachesExecutor(r, current) && !outcome.ExecutorRaised?
            then after.plan == Some(r.plan.value.(tasks := AfterExecution(r.plan.value.tasks, outcome)))
            else after == r
  {}

  lemma ExecuteMoves(r: RunRow, op: Op, j: nat)
    requires op.OpExecute? && r.plan.Some? && j < |r.plan.value.tasks|
    ensures TaskMoves(r, op, j, ExecuteNextTask(r, op.current, op.outcome).row.plan)
  {
    ExecuteIs(r, op.current, op.outcome);
    if ReachesExecutor(r, op.current) && !op.outcome.ExecutorRaised? {
      AfterExecutionMoves(r.plan.value.tasks, op.outcome, j);
    }
  }

  /** What an operation that stores no plan does to the plan and to task `j` of it. */
  ghost predicate TaskMoves(r: RunRow, op: Op, j: nat, after: Option<Plan>)
    requires r.plan.Some? && j < |r.plan.value.tasks|
  {
    && after.Some? && |after.value.tasks| == |r.plan.value.tasks| && after.value.id == r.plan.value.id
    && var a, b := r.plan.value.tasks[j].status, after.value.tasks[j].status;
       && (Runs(r, op, j) ==> b == StatusAfter(op) && !IsFinal(a))
       && (!Runs(r, op, j) && IsFinal(a) ==> b == a)
       && (!Runs(r, op, j) && b in {Passed, TaskStatus.Failed} ==> b == a)
  }

  /** Task `j` stays in the plan, is not reported on, and keeps a final status. */
  predicate KeepsTask(r: RunRow, j: nat, after: Option<Plan>)
    requires r.plan.Some? && j < |r.plan.value.tasks|
  {
    && after.Some? && |after.value.tasks| == |r.plan.value.tasks| && after.value.id == r.plan.value.id
    && var a, b := r.plan.value.tasks[j].status, after.value.tasks[j].status;
       (IsFinal(a) || b in {Passed, TaskStatus.Failed}) ==> b == a
  }

  /** Only a report about the task itself makes it PASSED or FAILED, and what is final stays. */
  lemma TasksMove(r: RunRow, op: Op, j: nat)
    requires r.plan.Some? && j < |r.plan.value.tasks| && !StoresPlan(r, op)
    ensures TaskMoves(r, op, j, Apply(r, op).row.plan)
  {
    if op.OpExecute? {
      ExecuteMoves(r, op, j);
    } else {
      OthersKeepTasks(r, op, j);
    }
  }

  lemma OthersKeepTasks(r: RunRow, op: Op, j: nat)
    requires r.plan.Some? && j < |r.plan.value.tasks| && !StoresPlan(r, op) && !op.OpExecute?
    ensures KeepsTask(r, j, Apply(r, op).row.plan)
  {
    if op.OpStart? {
      StartKeepsTask(r, op.user, op.current, j);
    } else if op.OpCreatePlan? {
      CreateKeepsTasks(r, op);
    } else if op.OpApprovePlan? || op.OpRejectPlan? {
      ResolvingKeepsTasks(r, op);
    } else if op.OpCancel? {
      CancelKeepsTask(r, j);
    } else if op.OpRecover? {
      RecoverKeepsTask(r, j);
    }
    var good := (after: RunRow) => KeepsTask(r, j, after.plan);
    ApplyCases(r, op, good);
    assert good(Apply(r, op).row);
  }

  lemma CreateKeepsTasks(r: RunRow, op: Op)
    requires op.OpCreatePlan? && r.plan.Some? && !StoresPlan(r, op)
    ensures CreatePlan(r, op.force, op.planner).row.plan == r.plan
  {}

  lemma ResolvingKeepsTasks(r: RunRow, op: Op)
    requires (op.OpApprovePlan? || op.OpRejectPlan?) && r.plan.Some?
    ensures var after := Apply(r, op).row.plan;
            after.Some? && after.value == r.plan.value.(status := after.value.status)
  {}

  lemma StartKeepsTask(r: RunRow, user: Option<int>, current: string, j: nat)
    requires r.plan.Some? && j < |r.plan.value.tasks|
    ensures KeepsTask(r, j, StartExecution(r, user, current).row.plan)
  {
    assert Settled(r.plan.value.tasks)[j] == SettledTask(r.plan.value.tasks, j);
  }

  lemma CancelKeepsTask(r: RunRow, j: nat)
    requires r.plan.Some? && j < |r.plan.value.tasks|
    ensures KeepsTask(r, j, CancelRun(r).row.plan)
  {}

  lemma RecoverKeepsTask(r: RunRow, j: nat)
    requires r.plan.Some? && j < |r.plan.value.tasks|
    ensures KeepsTask(r, j, Recover(r).plan)
  {}

  predicate IsReported(r: RunRow, j: nat) {
    r.plan.Some? && j < |r.plan.value.tasks| && r.plan.value.tasks[j].status in {Passed, TaskStatus.Failed}
  }

  /** If task `j` is reported on afterwards, the plan was there before, and the status is old or the report's. */
  ghost predicate ReportStep(r: RunRow, op: Op, after: RunRow, j: nat) {
    IsReported(after, j) ==>
      && !StoresPlan(r, op)
      && r.plan.Some? && r.plan.value.id == after.plan.value.id && j < |r.plan.value.tasks|
      && after.plan.value.tasks[j].status == if Runs(r, op, j) then StatusAfter(op) else r.plan.value.tasks[j].status
  }

  /** A plan is stored with all its tasks PENDING, so the step before left this plan in place. */
  lemma HistoryReports(rows: seq<RunRow>, ops: seq<Op>, n: nat, j: nat)
    requires IsHistory(rows, ops) && n < |ops|
    ensures ReportStep(rows[n], ops[n], rows[n + 1], j)
  {
    var r, op := rows[n], ops[n];
    StepProvenance(r, op);
    if !StoresPlan(r, op) && r.plan.Some? {
      SameTasks(r, op);
      if j < |r.plan.value.tasks| {
        TasksMove(r, op, j);
      }
    }
  }

  lemma {:induction false} LastReport(rows: seq<RunRow>, ops: seq<Op>, n: nat, j: nat) returns (i: nat)
    requires n <= |ops| < |rows| && rows[0].plan.None? && IsReported(rows[n], j)
    requires forall k :: 0 <= k < n ==> ReportStep(rows[k], ops[k], rows[k + 1], j)
    ensures i < n && rows[i].plan.Some? && rows[i].plan.value.id == rows[n].plan.value.id && Runs(rows[i], ops[i], j)
    ensures rows[n].plan.value.tasks[j].status == StatusAfter(ops[i])
    ensures forall k :: i <= k < n ==> !StoresPlan(rows[k], ops[k])
  {
    assert ReportStep(rows[n - 1], ops[n - 1], rows[n - 1 + 1], j);
    if Runs(rows[n - 1], ops[n - 1], j) {
      i := n - 1;
    } else {
      i := LastReport(rows, ops, n - 1, j);
    }
  }

  /**
   * A task of the stored plan is PASSED only if, since that plan was stored, it was handed to the
   * executor through the gate and verified; FAILED only if it was handed over and not verified.
   */
  lemma FinishedBy(rows: seq<RunRow>, ops: seq<Op>, n: nat, j: nat) returns (i: nat)
    requires IsHistory(rows, ops) && n <= |ops| && IsReported(rows[n], j)
    ensures i < n && rows[i].plan.Some? && rows[i].plan.value.id == rows[n].plan.value.id && Runs(rows[i], ops[i], j)
    ensures rows[n].plan.value.tasks[j].status == StatusAfter(ops[i])
    ensures forall k :: i <= k < n ==> !StoresPlan(rows[k], ops[k])
  {
    forall k | 0 <= k < n ensures ReportStep(rows[k], ops[k], rows[k + 1], j) {
      HistoryReports(rows, ops, k, j);
    }
    i := LastReport(rows, ops, n, j);
  }

  lemma SameTasks(r: RunRow, op: Op)
    requires r.plan.Some? && !StoresPlan(r, op)
    ensures Apply(r, op).row.plan.Some? && |Apply(r, op).row.plan.value.tasks| == |r.plan.value.tasks|
  {}

  predicate HasFinal(r: RunRow, j: nat, status: TaskStatus) {
    r.plan.Some? && j < |r.plan.value.tasks| && r.plan.value.tasks[j].status == status && IsFinal(status)
  }

  lemma FinalStep(rows: seq<RunRow>, ops: seq<Op>, n: nat, j: nat, status: TaskStatus)
    requires IsHistory(rows, ops) && n < |ops| && !StoresPlan(rows[n], ops[n])
    ensures HasFinal(rows[n], j, status) ==> HasFinal(rows[n + 1], j, status)
  {
    if HasFinal(rows[n], j, status) {
      TasksMove(rows[n], ops[n], j);
    }
  }

  /** As long as the plan stays, no task that has been reported on is handed to the executor again. */
  lemma RunsOnce(rows: seq<RunRow>, ops: seq<Op>, i: nat, m: nat, j: nat)
    requires IsHistory(rows, ops) && i < m < |ops| && Runs(rows[i], ops[i], j)
    requires forall k :: i <= k < m ==> !StoresPlan(rows[k], ops[k])
    ensures !Runs(rows[m], ops[m], j)
  {
    TasksMove(rows[i], ops[i], j);
    var status := StatusAfter(ops[i]);
    var holds := (k: nat) => k < |rows| && HasFinal(rows[k], j, status);
    forall k: nat | i < k < m && holds(k) ensures holds(k + 1) {
      FinalStep(rows, ops, k, j, status);
    }
    Stays(holds, i + 1, m);
    assert holds(m);
    if ops[m].OpExecute? {
      TasksMove(rows[m], ops[m], j);
    }
  }

  // ------------------------------------------------- the life of a record

  /** How one operation may change the status of record `k`. */
  predicate RecordMove(r: RunRow, op: Op, k: nat, before: Approval, after: Approval) {
    match after.status
    case Approved =>
      before.status == ApprovalStatus.Pending &&
      ((op.OpApproveAction? && op.k == k) || (ApprovesStoredPlan(r, op) && before.kind == PlanApproval))
    case Rejected =>
      before.status == ApprovalStatus.Pending &&
      ((op.OpRejectAction? && op.k == k)
       || (op.OpRejectPlan? && r.state == AwaitingApproval && before.kind == PlanApproval))
    case Expired => IsLivePlanApproval(before) && StoresPlan(r, op) && op.planner.valid
    case _ => false
  }

  /** A record keeps its subject, and its status moves only as RecordMove says. */
  predicate Moves(r: RunRow, op: Op, k: nat, after: seq<Approval>)
    requires k < |r.approvals|
  {
    && k < |after| && after[k].kind == r.approvals[k].kind && after[k].op == r.approvals[k].op
    && (after[k].status != r.approvals[k].status ==> RecordMove(r, op, k, r.approvals[k], after[k]))
  }

  lemma CreateMoves(r: RunRow, op: Op, k: nat)
    requires k < |r.approvals| && op.OpCreatePlan?
    ensures Moves(r, op, k, CreatePlan(r, op.force, op.planner).row.approvals)
  {}

  lemma ApproveMoves(r: RunRow, op: Op, k: nat)
    requires k < |r.approvals| && op.OpApprovePlan?
    ensures Moves(r, op, k, ApprovePlan(r, op.user, op.now).row.approvals)
  {}

  lemma RejectMoves(r: RunRow, op: Op, k: nat)
    requires k < |r.approvals| && op.OpRejectPlan?
    ensures Moves(r, op, k, RejectPlan(r, op.user, op.now).row.approvals)
  {}

  /** No record disappears or changes its subject; its status moves only forward, each way for one reason. */
  lemma RecordsMove(r: RunRow, op: Op, k: nat)
    requires k < |r.approvals|
    ensures Moves(r, op, k, Apply(r, op).row.approvals)
  {
    if op.OpCreatePlan? {
      CreateMoves(r, op, k);
    } else if op.OpApprovePlan? {
      ApproveMoves(r, op, k);
    } else if op.OpRejectPlan? {
      RejectMoves(r, op, k);
    } else if IsQuiet(op) {
      QuietKeeps(r, op);
    } else {
      ActionMoves(r, op, k);
    }
  }

  lemma ActionMoves(r: RunRow, op: Op, k: nat)
    requires k < |r.approvals| && IsActionOp(op)
    ensures Moves(r, op, k, Apply(r, op).row.approvals)
  {}

  /** The later record `b` of a request that was `a`: what is rejected or expired stays so, approved can only expire. */
  predicate Outlives(a: Approval, b: Approval) {
    && a.kind == b.kind && a.op == b.op
    && (a.status in {ApprovalStatus.Rejected, ApprovalStatus.Expired} ==> b.status == a.status)
    && (a.status == ApprovalStatus.Approved ==>
          b.status == a.status || (a.kind == PlanApproval && b.status == ApprovalStatus.Expired))
  }

  lemma RecordNext(rows: seq<RunRow>, ops: seq<Op>, i: nat, k: nat, a: Approval)
    requires IsHistory(rows, ops) && i < |ops| && k < |rows[i].approvals| && Outlives(a, rows[i].approvals[k])
    ensures k < |rows[i + 1].approvals| && Outlives(a, rows[i + 1].approvals[k])
  {
    RecordsMove(rows[i], ops[i], k);
  }

  /** Rejected and expired records stay so, and an approved record only ever expires, in every later state. */
  lemma ResolvedForEver(rows: seq<RunRow>, ops: seq<Op>, m: nat, n: nat, k: nat)
    requires IsHistory(rows, ops) && m <= n <= |ops| && k < |rows[m].approvals|
    ensures k < |rows[n].approvals| && Outlives(rows[m].approvals[k], rows[n].approvals[k])
  {
    var a := rows[m].approvals[k];
    var holds := (i: nat) => i < |rows| && k < |rows[i].approvals| && Outlives(a, rows[i].approvals[k]);
    forall i: nat | m <= i < n && holds(i) ensures holds(i + 1) {
      RecordNext(rows, ops, i, k, a);
    }
    Stays(holds, m, n);
    assert holds(n);
  }

  // ----------------------------------------------------- versions, history

  /** How many of the first `n` operations wrote a plan. */
  ghost function PlansStored(rows: seq<RunRow>, ops: seq<Op>, n: nat): nat
    requires n <= |ops| <= |rows|
  {
    if n == 0 then 0
    else PlansStored(rows, ops, n - 1) + (if StoresPlan(rows[n - 1], ops[n - 1]) then 1 else 0)
  }

  lemma VersionStep(r: RunRow, op: Op)
    ensures NextVersion(Apply(r, op).row) == NextVersion(r) + (if StoresPlan(r, op) then 1 else 0)
    ensures StoresPlan(r, op) ==>
              Apply(r, op).row.plan.Some? && Apply(r, op).row.plan.value.version == NextVersion(r)
  {
    StepProvenance(r, op);
  }

  lemma {:induction false} VersionsCount(rows: seq<RunRow>, ops: seq<Op>, n: nat)
    requires IsHistory(rows, ops) && n <= |ops|
    ensures NextVersion(rows[n]) == PlansStored(rows, ops, n) + 1
  {
    if n == 0 {
      var u :| rows[0] == CreatedRun(u);
    } else {
      VersionsCount(rows, ops, n - 1);
      VersionStep(rows[n - 1], ops[n - 1]);
    }
  }

  /** Versions are 1, 2, 3, ...: the k-th plan that is written has version k. */
  lemma VersionsAreCounted(rows: seq<RunRow>, ops: seq<Op>, n: nat)
    requires IsHistory(rows, ops) && n < |ops| && StoresPlan(rows[n], ops[n])
    ensures rows[n + 1].plan.Some? && rows[n + 1].plan.value.version == PlansStored(rows, ops, n + 1)
    ensures PlansStored(rows, ops, n + 1) == PlansStored(rows, ops, n) + 1
  {
    VersionsCount(rows, ops, n);
    VersionStep(rows[n], ops[n]);
  }

  /** The history table, at any time. */
  lemma HistoryAlways(rows: seq<RunRow>, ops: seq<Op>, n: nat)
    requires IsHistory(rows, ops) && n <= |ops|
    ensures ChainOk(rows[n].history)
    ensures rows[n].plan.Some? ==> NewestRowOk(rows[n].history, rows[n].plan.value)
  {
    CoreAlways(rows, ops, n);
  }

  /** What the marks and the new row of HistoryStep do to a superseded row: nothing. */
  lemma SupersededKept(h: seq<HistoryRow>, p: Plan, q: Plan, k: nat)
    requires ChainOk(h) && NewestRowOk(h, p) && k < |h| && h[k].status == HistoryStatus.Superseded
    ensures var a := Marked(h, p.id, HistoryStatus.Approved); |a| == |h| && a[k] == h[k]
    ensures var b := Marked(h, p.id, HistoryStatus.Rejected); |b| == |h| && b[k] == h[k]
    ensures WithRowFor(h, q)[k] == h[k]
  {
    assert k < |h| - 1;
    MarkedKeeps(h, p, PlanStatus.Approved);
    MarkedKeeps(h, p, PlanStatus.Rejected);
  }

  /** One operation leaves every superseded row as it is, and appends at most one row. */
  lemma SupersededStepStays(r: RunRow, op: Op, k: nat)
    requires Core(r) && k < |r.history| && r.history[k].status == HistoryStatus.Superseded
    ensures var h := Apply(r, op).row.history;
            |r.history| <= |h| <= |r.history| + 1 && h[k] == r.history[k]
  {
    HistoryStep(r, op);
    if r.plan.Some? {
      SupersededKept(r.history, r.plan.value, if PlansIn(op) then NewPlan(r, op.planner) else r.plan.value, k);
    }
  }

  lemma SupersededNext(rows: seq<RunRow>, ops: seq<Op>, i: nat, k: nat)
    requires IsHistory(rows, ops) && i < |ops|
    requires k < |rows[i].history| && rows[i].history[k].status == HistoryStatus.Superseded
    ensures k < |rows[i + 1].history| && rows[i + 1].history[k] == rows[i].history[k]
  {
    CoreAlways(rows, ops, i);
    SupersededStepStays(rows[i], ops[i], k);
  }

  /** A superseded row is never reopened by any later approval or rejection. */
  lemma SupersededForEver(rows: seq<RunRow>, ops: seq<Op>, m: nat, n: nat, k: nat)
    requires IsHistory(rows, ops) && m <= n <= |ops|
    requires k < |rows[m].history| && rows[m].history[k].status == HistoryStatus.Superseded
    ensures k < |rows[n].history| && rows[n].history[k] == rows[m].history[k]
  {
    var row := rows[m].history[k];
    var holds := (i: nat) => i < |rows| && k < |rows[i].history| && rows[i].history[k] == row;
    forall i: nat | m <= i < n && holds(i) ensures holds(i + 1) {
      SupersededNext(rows, ops, i, k);
    }
    Stays(holds, m, n);
    assert holds(n);
  }

  // ------------------------------------------------------ terminal states

  /** Nothing leaves a terminal state, and the log of a finished run is closed. */
  lemma TerminalIsFinal(r: RunRow, op: Op)
    requires IsTerminal(r.state)
    ensures var after := Apply(r, op).row;
            after.state == r.state && after.log == r.log && after.plan == r.plan && after.completed == r.completed
  {}

  /** A finished run stays finished, and no task of it ever reaches the executor again. */
  lemma FinishedForEver(rows: seq<RunRow>, ops: seq<Op>, m: nat, n: nat)
    requires IsHistory(rows, ops) && m <= n <= |ops| && IsTerminal(rows[m].state)
    ensures rows[n].state == rows[m].state && rows[n].log == rows[m].log && rows[n].plan == rows[m].plan
    ensures forall current: string :: !ReachesExecutor(rows[n], current)
  {
    var end := rows[m];
    var holds := (i: nat) => i < |rows| && SameEnd(end, rows[i]);
    forall i: nat | m <= i < n && holds(i) ensures holds(i + 1) {
      assert rows[i + 1] == Apply(rows[i], ops[i]).row;
      TerminalIsFinal(rows[i], ops[i]);
    }
    Stays(holds, m, n);
    assert holds(n);
  }

  predicate SameEnd(end: RunRow, r: RunRow) {
    r.state == end.state && r.log == end.log && r.plan == end.plan
  }

  /** The operations that can end a run in each terminal state. */
  predicate Ends(r: RunRow, op: Op, s: AgentState) {
    || op == OpTransition(s)
    || (s == Completed && op == OpComplete(true))
    || (s == AgentState.Failed && (op == OpComplete(false) || op == OpRecover))
    || (s == AgentState.Cancelled && (op == OpCancel || (op.OpRejectPlan? && r.state == AwaitingApproval)))
  }

  lemma EndsStep(r: RunRow, op: Op)
    requires !IsTerminal(r.state) && IsTerminal(Apply(r, op).row.state)
    ensures Ends(r, op, Apply(r, op).row.state)
  {
    match op
    case OpCreatePlan(force, planner) =>
      CreateGoesOn(r, force, planner);
    case OpExecute(current, outcome) =>
      ExecuteIsQuiet(r, current, outcome);
    case _ =>
  }

  lemma CreateGoesOn(r: RunRow, force: bool, p: Planner)
    requires !IsTerminal(r.state)
    ensures !IsTerminal(CreatePlan(r, force, p).row.state)
  {}

  /** Every finished run was ended by one step, of a kind that its final state tells. */
  lemma HowItEnded(rows: seq<RunRow>, ops: seq<Op>, n: nat) returns (i: nat)
    requires IsHistory(rows, ops) && n <= |ops| && IsTerminal(rows[n].state)
    ensures i < n && !IsTerminal(rows[i].state) && Ends(rows[i], ops[i], rows[n].state)
    ensures rows[i + 1].state == rows[n].state && rows[i + 1].log == rows[n].log
  {
    StartsActive(rows, ops);
    i := WhenFirst((k: nat) => k < |rows| && IsTerminal(rows[k].state), n);
    EndsNext(rows, ops, i);
    FinishedForEver(rows, ops, i + 1, n);
  }

  lemma StartsActive(rows: seq<RunRow>, ops: seq<Op>)
    requires IsHistory(rows, ops)
    ensures !IsTerminal(rows[0].state)
  {
    var u :| rows[0] == CreatedRun(u);
  }

  lemma EndsNext(rows: seq<RunRow>, ops: seq<Op>, i: nat)
    requires IsHistory(rows, ops) && i < |ops| && !IsTerminal(rows[i].state) && IsTerminal(rows[i + 1].state)
    ensures Ends(rows[i], ops[i], rows[i + 1].state)
  {
    EndsStep(rows[i], ops[i]);
  }

  /**
   * reject_plan on a waiting run rejects the stored plan and its history row, leaves no plan approval
   * pending and cancels the run, after which nothing of it is ever executed.
   */
  lemma RejectedNeverExecutes(rows: seq<RunRow>, ops: seq<Op>, m: nat, n: nat)
    requires IsHistory(rows, ops) && m < n <= |ops|
    requires ops[m].OpRejectPlan? && rows[m].state == AwaitingApproval && !Foreign(rows[m], ops[m].user)
    ensures Apply(rows[m], ops[m]).reply == Done && rows[n].state == AgentState.Cancelled
    ensures FirstPendingPlanApproval(rows[m + 1].approvals) == None
    ensures rows[m].plan.Some? ==>
              && rows[n].plan == Some(rows[m].plan.value.(status := PlanStatus.Rejected))
              && (rows[m].plan.value.valid ==>
                    && rows[m + 1].history != []
                    && rows[m + 1].history[|rows[m + 1].history| - 1].planId == rows[m].plan.value.id
                    && rows[m + 1].history[|rows[m + 1].history| - 1].status == HistoryStatus.Rejected)
    ensures forall current: string :: !ReachesExecutor(rows[n], current)
  {
    RejectHappens(rows, ops, m);
    if rows[m].plan.Some? && rows[m].plan.value.valid {
      HistoryAlways(rows, ops, m + 1);
      RejectedRow(rows[m + 1]);
    }
    FinishedForEver(rows, ops, m + 1, n);
  }

  lemma RejectHappens(rows: seq<RunRow>, ops: seq<Op>, m: nat)
    requires IsHistory(rows, ops) && m < |ops|
    requires ops[m].OpRejectPlan? && rows[m].state == AwaitingApproval && !Foreign(rows[m], ops[m].user)
    ensures Apply(rows[m], ops[m]).reply == Done && rows[m + 1].state == AgentState.Cancelled
    ensures FirstPendingPlanApproval(rows[m + 1].approvals) == None
    ensures rows[m].plan.Some? ==> rows[m + 1].plan == Some(rows[m].plan.value.(status := PlanStatus.Rejected))
  {
    RejectEnds(rows[m], ops[m].user, ops[m].now);
  }

  lemma RejectedRow(r: RunRow)
    requires r.plan.Some? && r.plan.value.valid && r.plan.value.status == PlanStatus.Rejected
    requires NewestRowOk(r.history, r.plan.value)
    ensures r.history != []
    ensures var row := r.history[|r.history| - 1]; row.planId == r.plan.value.id && row.status == HistoryStatus.Rejected
  {}

  lemma RejectEnds(r: RunRow, user: Option<int>, now: int)
    requires r.state == AwaitingApproval && !Foreign(r, user)
    ensures var after := RejectPlan(r, user, now);
            && after.reply == Done && after.row.state == AgentState.Cancelled
            && FirstPendingPlanApproval(after.row.approvals) == None
            && (r.plan.Some? ==> after.row.plan == Some(r.plan.value.(status := PlanStatus.Rejected)))
  {}

  /** Recovery ends every active run, touches no finished one, and finds nothing the second time. */
  lemma RecoveryEndsRun(r: RunRow)
    ensures IsTerminal(Recover(r).state)
    ensures Recover(r) == r <==> IsTerminal(r.state)
    ensures Recover(Recover(r)) == Recover(r)
    ensures !IsTerminal(r.state) && r.plan.Some? ==>
              && Recover(r).plan.Some? && |Recover(r).plan.value.tasks| == |r.plan.value.tasks|
              && forall k :: 0 <= k < |r.plan.value.tasks| ==>
                   var before, after := r.plan.value.tasks[k], Recover(r).plan.value.tasks[k];
                   && after.status !in {Running, TaskStatus.Verifying}
                   && (before.status !in {Running, TaskStatus.Verifying} ==> after == before)
  {}

  // ------------------------------------------------------- pause, resume

  predicate IsActionOp(op: Op) {
    op.OpRequest? || op.OpApproveAction? || op.OpRejectAction?
  }

  /** Paused exactly while something is pending. */
  predicate PausedIffPending(r: RunRow) {
    r.state == (if HasPending(r.approvals) then AwaitingApproval else Executing)
  }

  lemma PauseStep(r: RunRow, op: Op)
    requires PausedIffPending(r) && IsActionOp(op)
    ensures PausedIffPending(Apply(r, op).row)
  {
    if op.OpRequest? {
      var after := Apply(r, op).row.approvals;
      assert after[|r.approvals|].status == ApprovalStatus.Pending;
    } else if op.k < |r.approvals| && r.approvals[op.k].status == ApprovalStatus.Pending {
      assert HasPending(r.approvals);
    }
  }

  /** The run after the first `n` operations. */
  ghost function After(r: RunRow, ops: seq<Op>, n: nat): RunRow
    requires n <= |ops|
  {
    if n == 0 then r else Apply(After(r, ops, n - 1), ops[n - 1]).row
  }

  /** From EXECUTING with nothing pending, requests, approvals and rejections pause and resume correctly. */
  lemma {:induction false} PauseAndResume(r: RunRow, ops: seq<Op>, n: nat)
    requires r.state == Executing && !HasPending(r.approvals)
    requires n <= |ops| && forall i :: 0 <= i < n ==> IsActionOp(ops[i])
    ensures PausedIffPending(After(r, ops, n))
  {
    if n > 0 {
      PauseAndResume(r, ops, n - 1);
      PauseStep(After(r, ops, n - 1), ops[n - 1]);
    }
  }
}
