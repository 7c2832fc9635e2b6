/**
 * The run as a mutable object, and the operations of engineering_agent.py,
 * plan_ops.py, task_ops.py and the safety controllers on it, each proved to do what the
 * function of the same name in AgentRunModel says.
 */
module AgentRuns {
  import opened Basics
  import opened AgentStateMachine
  import opened TaskDag
  import Model = AgentRunModel

  type Approval = Model.Approval
  type Plan = Model.Plan
  type HistoryRow = Model.HistoryRow

  class AgentRun {
    const userId: Option<int>
    var state: AgentState
    var status: LegacyStatus
    var completed: bool
    var plan: Option<Plan>
    var approvals: seq<Approval>
    var history: seq<HistoryRow>
    var log: seq<Transition>

    /** The run as a value. */
    ghost function Row(): Model.RunRow
      reads this
    {
      Model.RunRow(userId, state, status, completed, plan, approvals, history, log)
    }

    /** create_run: the row is inserted in IDLE and moved to UNDERSTANDING. */
    constructor (userId: Option<int>)
      ensures Row() == Model.CreatedRun(userId)
    {
      this.userId := userId;
      state, status, completed, plan := Idle, Queued, false, None;
      approvals, history, log := [], [], [];
      new;
      var reply := TransitionState(Understanding);
    }

    // ------------------------------------------------- engineering_agent.py

    method TransitionState(to: AgentState) returns (reply: Model.Reply)
      modifies this
      ensures Model.Outcome(Row(), reply) == Model.TransitionTo(old(Row()), to)
    {
      if !CanTransition(state, to) {
        return Model.Refused(Model.InvalidTransition);
      }
      log := log + [Transition(state, to)];
      state := to;
      status := Legacy(to);
      if IsTerminal(to) {
        completed := true;
      }
      reply := Model.Done;
    }

    method RequestActionApproval(kind: Model.ActionType, op: Model.Operation)
      modifies this
      ensures Row() == Model.RequestActionApproval(old(Row()), kind, op)
    {
      if state == Executing {
        var reply := TransitionState(AwaitingApproval);
      }
      approvals := approvals + [Model.Approval(kind, Model.ApprovalStatus.Pending, op, 0)];
    }

    /** get_pending_approvals, asked only whether there are any. */
    method AnyPending() returns (any: bool)
      ensures any == Model.HasPending(approvals)
    {
      for k := 0 to |approvals|
        invariant forall j :: 0 <= j < k ==> approvals[j].status != Model.ApprovalStatus.Pending
      {
        if approvals[k].status == Model.ApprovalStatus.Pending {
          return true;
        }
      }
      return false;
    }

    /** approve_action and reject_action differ only in the verdict. */
    method ResolveAction(k: nat, verdict: Model.ApprovalStatus, now: int) returns (reply: Model.Reply)
      modifies this
      ensures Model.Outcome(Row(), reply) == Model.ResolveAction(old(Row()), k, verdict, now)
    {
      if k >= |approvals| {
        return Model.Refused(Model.ApprovalNotFound);
      }
      if approvals[k].status != Model.ApprovalStatus.Pending {
        return Model.Refused(Model.ApprovalNotPending);
      }
      approvals := approvals[k := approvals[k].(status := verdict, resolvedAt := now)];
      reply := Model.Done;
      if state == AwaitingApproval {
        var pending := AnyPending();
        if !pending {
          reply := TransitionState(Executing);
        }
      }
    }

    // ------------------------------------------------------------ plan_ops.py

    /** The loop that expires the live plan approvals of older plans. */
    method ExpirePlanApprovals()
      modifies this`approvals
      ensures approvals == Model.ExpireLive(old(approvals))
    {
      for k := 0 to |approvals|
        invariant |approvals| == |old(approvals)|
        invariant forall j :: 0 <= j < k ==> approvals[j] == Model.ExpireLive(old(approvals))[j]
        invariant forall j :: k <= j < |approvals| ==> approvals[j] == old(approvals)[j]
      {
        if Model.IsLivePlanApproval(approvals[k]) {
          approvals := approvals[k := approvals[k].(status := Model.ApprovalStatus.Expired)];
        }
      }
    }

    /** The loop that supersedes the history rows of earlier versions. */
    method SupersedeOlderPlans(p: Plan)
      modifies this`history
      ensures history == Model.Supersede(old(history), p)
    {
      for k := 0 to |history|
        invariant |history| == |old(history)|
        invariant forall j :: 0 <= j < k ==> history[j] == Model.Supersede(old(history), p)[j]
        invariant forall j :: k <= j < |history| ==> history[j] == old(history)[j]
      {
        if history[k].version < p.version && history[k].status != Model.HistoryStatus.Superseded {
          history := history[k := history[k].(status := Model.HistoryStatus.Superseded, supersededBy := Some(p.id))];
        }
      }
    }

    method AnyLivePlanApproval() returns (any: bool)
      ensures any == Model.HasLive(approvals)
    {
      for k := 0 to |approvals|
        invariant forall j :: 0 <= j < k ==> !Model.IsLivePlanApproval(approvals[j])
      {
        if Model.IsLivePlanApproval(approvals[k]) {
          return true;
        }
      }
      return false;
    }

    /** `planner` is what context assembly and the planning orchestrator come back with. */
    method CreatePlan(force: bool, planner: Model.Planner) returns (reply: Model.Reply)
      modifies this
      ensures Model.Outcome(Row(), reply) == Model.CreatePlan(old(Row()), force, planner)
    {
      if IsTerminal(state) {
        return Model.Refused(Model.TerminalRun);
      }
      if !force && state == AwaitingApproval && plan.Some? && plan.value.valid {
        var existing := AnyLivePlanApproval();
        if existing {
          return Model.Done;
        }
      }
      if state in {Idle, Understanding, AwaitingApproval} {
        reply := TransitionState(Planning);
        if reply != Model.Done {
          return;
        }
      }
      if planner.PlannerRaised? {
        return Model.Refused(Model.PlanningFailed);
      }
      StorePlan(planner);
      reply := Model.Done;
    }

    /** The rest of create_plan, once the orchestrator has come back with a plan. */
    method StorePlan(planner: Model.Planner)
      requires planner.Planned?
      modifies this
      ensures var before := old(Row()); var p := Model.NewPlan(before, planner);
              Row() == if planner.valid then Model.WithValidPlan(before, p) else before.(plan := Some(p))
    {
      var version := (if plan.Some? then plan.value.version else 0) + 1;
      if !planner.valid {
        plan := Some(Model.Plan(planner.id, version, Model.PlanStatus.Invalid, false, planner.revision, planner.tasks));
        return;
      }
      var p := Model.Plan(planner.id, version, Model.PlanStatus.Ready, true, planner.revision, planner.tasks);
      plan := Some(p);
      history := history + [Model.HistoryRow(p.id, p.version, Model.HistoryStatus.Ready, None)];
      SupersedeOlderPlans(p);
      ExpirePlanApprovals();
      if state == Planning {
        var moved := TransitionState(AwaitingApproval);
      }
      approvals := approvals + [Model.Approval(Model.PlanApproval, Model.ApprovalStatus.Pending, Model.Binding(p), 0)];
    }

    /** revise_plan: the feedback joins the requirement, and a new plan is forced. */
    method RevisePlan(planner: Model.Planner) returns (reply: Model.Reply)
      modifies this
      ensures Model.Outcome(Row(), reply) == Model.CreatePlan(old(Row()), true, planner)
    {
      if IsTerminal(state) {
        return Model.Refused(Model.TerminalRun);
      }
      reply := CreatePlan(true, planner);
    }

    /** assert_execution_authorized. */
    method AssertExecutionAuthorized(user: Option<int>, targetId: string, targetVersion: Option<int>, current: string)
        returns (reply: Model.Reply)
      ensures reply == Model.Gate(Row(), user, targetId, targetVersion, current)
    {
      if user.Some? && userId.Some? && user != userId {
        return Model.Refused(Model.NotOwner);
      }
      if state !in {AwaitingApproval, Executing} {
        return Model.Refused(Model.WrongState);
      }
      if plan.None? {
        return Model.Refused(Model.NoPlan);
      }
      var p := plan.value;
      if p.status != Model.PlanStatus.Approved {
        return Model.Refused(Model.PlanNotApproved);
      }
      if !p.valid {
        return Model.Refused(Model.PlanNotValid);
      }
      reply := CheckRecord(p, targetId, targetVersion, current);
    }

    /** The checks against the newest approved record. */
    method CheckRecord(p: Plan, targetId: string, targetVersion: Option<int>, current: string)
        returns (reply: Model.Reply)
      ensures reply == Model.RecordGate(approvals, p, targetId, targetVersion, current)
    {
      var newest := Model.NewestApproved(approvals);
      if newest.None? {
        return Model.Refused(Model.NoApproval);
      }
      var op := approvals[newest.value].op;
      if op.planId != "" && op.planId != p.id {
        return Model.Refused(Model.PlanIdMismatch);
      }
      if op.version.Some? && op.version.value != p.version {
        return Model.Refused(Model.VersionMismatch);
      }
      if targetId != "" && targetId != p.id {
        return Model.Refused(Model.TargetIdMismatch);
      }
      if targetVersion.Some? && targetVersion.value != p.version {
        return Model.Refused(Model.TargetVersionMismatch);
      }
      var approved := if op.revision != "" then op.revision else p.revision;
      if approved != "" && current != "" && approved != current {
        return Model.Refused(Model.RevisionMismatch);
      }
      reply := Model.Done;
    }

    /** The update of the history row of a resolved plan. */
    method MarkHistory(planId: string, status: Model.HistoryStatus)
      modifies this`history
      ensures history == Model.Marked(old(history), planId, status)
    {
      var k := Model.FindRow(history, planId);
      if k.Some? {
        history := history[k.value := history[k.value].(status := status)];
      }
    }

    method ApprovePlan(user: Option<int>, now: int) returns (reply: Model.Reply)
      modifies this
      ensures Model.Outcome(Row(), reply) == Model.ApprovePlan(old(Row()), user, now)
    {
      if user.Some? && userId.Some? && user != userId {
        return Model.Refused(Model.NotOwner);
      }
      if state == Executing {
        return Model.Done;
      }
      if state != AwaitingApproval {
        return Model.Refused(Model.WrongState);
      }
      if plan.None? {
        return Model.Refused(Model.NoPlan);
      }
      if plan.value.status == Model.PlanStatus.Approved {
        return Model.Done;
      }
      if plan.value.status != Model.PlanStatus.Ready {
        return Model.Refused(Model.PlanNotReady);
      }
      var p := plan.value.(status := Model.PlanStatus.Approved);
      plan := Some(p);
      MarkHistory(p.id, Model.HistoryStatus.Approved);
      ApproveRecord(p, now);
      reply := Model.Done;
    }

    /** The part of approve_plan that resolves the pending record, or files an approved one. */
    method ApproveRecord(p: Model.Plan, now: int)
      modifies this`approvals
      ensures approvals == Model.ApproveRecord(old(approvals), p, now)
    {
      var pending := Model.FirstPendingPlanApproval(approvals);
      if pending.Some? {
        approvals := approvals[pending.value :=
                       Model.Resolved(approvals[pending.value], Model.ApprovalStatus.Approved, now)];
      } else {
        var last := Model.LastPlanApproval(approvals);
        // Had the last plan approval been pending, it would have been found above.
        if last.None? {
          approvals := approvals + [Model.Approval(Model.PlanApproval, Model.ApprovalStatus.Pending, Model.Binding(p), 0)];
          var k := |approvals| - 1;
          approvals := approvals[k := Model.Resolved(approvals[k], Model.ApprovalStatus.Approved, now)];
        }
      }
    }

    method RejectPlan(user: Option<int>, now: int) returns (reply: Model.Reply)
      modifies this
      ensures Model.Outcome(Row(), reply) == Model.RejectPlan(old(Row()), user, now)
    {
      if user.Some? && userId.Some? && user != userId {
        return Model.Refused(Model.NotOwner);
      }
      if state == Cancelled {
        return Model.Done;
      }
      if state != AwaitingApproval {
        return Model.Refused(Model.WrongState);
      }
      if plan.Some? {
        plan := Some(plan.value.(status := Model.PlanStatus.Rejected));
        MarkHistory(plan.value.id, Model.HistoryStatus.Rejected);
      }
      RejectPendingRecords(now);
      reply := TransitionState(Cancelled);
    }

    /** The loop of reject_plan over the pending plan approvals. */
    method RejectPendingRecords(now: int)
      modifies this`approvals
      ensures approvals == Model.RejectPending(old(approvals), now)
    {
      for k := 0 to |approvals|
        invariant |approvals| == |old(approvals)|
        invariant forall j :: 0 <= j < k ==> approvals[j] == Model.RejectPending(old(approvals), now)[j]
        invariant forall j :: k <= j < |approvals| ==> approvals[j] == old(approvals)[j]
      {
        if Model.IsPendingPlanApproval(approvals[k]) {
          approvals := approvals[k := Model.Resolved(approvals[k], Model.ApprovalStatus.Rejected, now)];
        }
      }
    }

    // ------------------------------------------------------------ task_ops.py

    method StartPlanExecution(user: Option<int>, current: string) returns (reply: Model.Reply)
      modifies this
      ensures Model.Outcome(Row(), reply) == Model.StartExecution(old(Row()), user, current)
    {
      if user.Some? && userId.Some? && user != userId {
        return Model.Refused(Model.NotOwner);
      }
      if state == Executing {
        return Model.Done;
      }
      if state != AwaitingApproval {
        return Model.Refused(Model.WrongState);
      }
      reply := AssertExecutionAuthorized(user, "", None, current);
      if reply != Model.Done {
        return;
      }
      var tasks := EvaluateDependencies(plan.value.tasks);
      plan := Some(plan.value.(tasks := tasks));
      reply := TransitionState(Executing);
    }

    /** `outcome` is what the executor and the verifier report, if they are reached. */
    method ExecuteNextTask(current: string, outcome: ExecOutcome) returns (reply: Model.Reply)
      modifies this
      ensures Model.Outcome(Row(), reply) == Model.ExecuteNextTask(old(Row()), current, outcome)
    {
      if state != Executing {
        return Model.Refused(Model.WrongState);
      }
      reply := AssertExecutionAuthorized(None, "", None, current);
      if reply != Model.Done {
        return;
      }
      var tasks, next := SelectNextTask(plan.value.tasks);
      if next.None? {
        return Model.Done;
      }
      var k := FindTask(tasks, tasks[next.value].id);
      assert k == Started(plan.value.tasks);
      if tasks[k.value].status != Ready {
        return Model.Refused(Model.TaskNotReady);
      }
      ghost var settled := tasks;
      tasks := tasks[k.value := tasks[k.value].(status := Running)];
      if outcome.ExecutorRaised? {
        return Model.Refused(Model.ExecutionRaised);
      }
      tasks := WriteBack(tasks, k.value, outcome);
      assert tasks == AfterExecution(plan.value.tasks, outcome) by {
        var verdict := if outcome == Executed(true) then Passed else TaskStatus.Failed;
        assert settled[k.value := settled[k.value].(status := Running)][k.value := settled[k.value].(status := verdict)]
            == settled[k.value := settled[k.value].(status := verdict)];
      }
      plan := Some(plan.value.(tasks := tasks));
      reply := Model.Done;
    }

    /** What execute_next_task writes to the running task after the reports, and the evaluation that follows. */
    method WriteBack(ts: seq<Task>, k: nat, outcome: ExecOutcome) returns (tasks: seq<Task>)
      requires k < |ts| && !outcome.ExecutorRaised?
      ensures tasks == Settled(ts[k := ts[k].(status := if outcome == Executed(true) then Passed else TaskStatus.Failed)])
    {
      tasks := ts;
      if outcome.ExecutionFailed? {
        tasks := tasks[k := tasks[k].(status := TaskStatus.Failed)];
      } else {
        tasks := tasks[k := tasks[k].(status := TaskStatus.Verifying)];
        tasks := tasks[k := tasks[k].(status := if outcome.verified then Passed else TaskStatus.Failed)];
      }
      assert tasks == ts[k := ts[k].(status := if outcome == Executed(true) then Passed else TaskStatus.Failed)];
      tasks := EvaluateDependencies(tasks);
    }

    method CompleteRun(success: bool) returns (reply: Model.Reply)
      modifies this
      ensures Model.Outcome(Row(), reply) == Model.CompleteRun(old(Row()), success)
    {
      if state !in {Executing, AgentState.Verifying} {
        return Model.Done;
      }
      reply := TransitionState(if success then Completed else AgentState.Failed);
    }

    // ------------------------------------------------- safety/cancellation.py

    method CancelRun() returns (reply: Model.Reply)
      modifies this
      ensures Model.Outcome(Row(), reply) == Model.CancelRun(old(Row()))
    {
      if state == Cancelled {
        return Model.Done;
      }
      if state in {Completed, AgentState.Failed} {
        return Model.Refused(Model.InvalidTransition);
      }
      BlockTasks({Pending, Ready});
      state := Cancelled;
      status := Legacy(Cancelled);
      completed := true;
      reply := Model.Done;
    }

    /** Cancellation and recovery block the tasks of the stored plan that have certain statuses. */
    method BlockTasks(which: set<TaskStatus>)
      modifies this`plan
      ensures Row() == Model.WithTasksBlocked(old(Row()), which)
    {
      if plan.Some? {
        var ts := plan.value.tasks;
        for k := 0 to |ts|
          invariant |ts| == |plan.value.tasks|
          invariant forall j :: 0 <= j < k ==> ts[j] == Model.BlockTasks(plan.value.tasks, which)[j]
          invariant forall j :: k <= j < |ts| ==> ts[j] == plan.value.tasks[j]
        {
          if ts[k].status in which {
            ts := ts[k := ts[k].(status := Blocked)];
          }
        }
        assert ts == Model.BlockTasks(plan.value.tasks, which);
        plan := Some(plan.value.(tasks := ts));
      }
    }

    /** One iteration of restart recovery on an active run. */
    method FailOnRestart()
      requires !IsTerminal(state)
      modifies this
      ensures Row() == Model.Recover(old(Row()))
    {
      BlockTasks({Running, TaskStatus.Verifying});
      completed := true;
      state := AgentState.Failed;
      status := Unsuccessful;
      log := log + [Transition(state, AgentState.Failed)];
    }
  }

  /**
   * recover_in_flight_runs over the table of runs: every run is recovered, those
   * that had finished keep every field, and the ids returned are those that had not.
   */
  method RecoverInFlightRuns(runs: seq<AgentRun>) returns (recovered: seq<nat>)
    requires forall i, j :: 0 <= i < j < |runs| ==> runs[i] != runs[j]
    modifies runs
    ensures forall i :: 0 <= i < |runs| ==> runs[i].Row() == Model.Recover(old(runs[i].Row()))
    ensures forall i :: 0 <= i < |runs| ==> IsTerminal(runs[i].state)
    ensures forall i :: 0 <= i < |runs| ==> (i in recovered <==> !IsTerminal(old(runs[i].state)))
    ensures forall i, j :: 0 <= i < j < |recovered| ==> recovered[i] < recovered[j] < |runs|
  {
    recovered := [];
    for k := 0 to |runs|
      invariant forall i :: 0 <= i < k ==> runs[i].Row() == Model.Recover(old(runs[i].Row()))
      invariant forall i :: k <= i < |runs| ==> runs[i].Row() == old(runs[i].Row())
      invariant forall i :: 0 <= i < |recovered| ==> recovered[i] < k
      invariant forall i :: 0 <= i < k ==> (i in recovered <==> !IsTerminal(old(runs[i].state)))
      invariant forall i, j :: 0 <= i < j < |recovered| ==> recovered[i] < recovered[j]
    {
      assert runs[k].Row() == old(runs[k].Row());
      if !IsTerminal(runs[k].state) {
        runs[k].FailOnRestart();
        recovered := recovered + [k];
      }
    }
  }
}
