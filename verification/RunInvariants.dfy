/**
 * What every operation on a run keeps, whatever the order of operations.
 * Core needs only the planner's contract; RecordsOk is kept by everything but a
 * harmful PLAN_APPROVAL that a caller files through request_action_approval.
 */
module RunInvariants {
  import opened Basics
  import opened AgentStateMachine
  import opened TaskDag
  import opened AgentRunModel

  /** The legacy status is the image of the state; completed_at is set exactly in terminal states. */
  predicate StatusOk(r: RunRow) {
    r.status == Legacy(r.state) && r.completed == IsTerminal(r.state)
  }

  /** The log is a walk to the current state. */
  predicate LogReachesState(r: RunRow) {
    IsWalk(r.log) && End(r.log) == r.state
  }

  /** The cancellation controller ended the run: the log stops at the state it was taken from. */
  predicate LogStopsAtCancel(r: RunRow) {
    IsWalk(r.log) && !IsTerminal(End(r.log)) && r.state == AgentState.Cancelled
  }

  /** Restart recovery ended the run: a walk to an active state, then FAILED to FAILED. */
  predicate LogEndsInRecovery(r: RunRow) {
    r.log != [] && r.state == AgentState.Failed
    && r.log[|r.log| - 1] == Transition(AgentState.Failed, AgentState.Failed)
    && IsWalk(r.log[..|r.log| - 1]) && !IsTerminal(End(r.log[..|r.log| - 1]))
  }

  predicate LogOk(r: RunRow) {
    LogReachesState(r) || LogStopsAtCancel(r) || LogEndsInRecovery(r)
  }

  predicate PlanOk(r: RunRow) {
    match r.plan
    case None => r.history == []
    case Some(p) =>
      && p.version >= 1 && p.id != "" && p.revision != ""
      && (p.status in {PlanStatus.Ready, PlanStatus.Approved} ==> p.valid)
      && (p.valid ==> p.status != PlanStatus.Invalid)
      && (p.status == PlanStatus.Rejected ==> r.state == AgentState.Cancelled)
      && DepsRespected(p.tasks)
  }

  function StatusInHistory(s: PlanStatus): HistoryStatus {
    match s
    case Ready | Invalid => HistoryStatus.Ready
    case Approved => HistoryStatus.Approved
    case Rejected => HistoryStatus.Rejected
  }

  /** Versions increase, every row but the newest is superseded by the next one. */
  predicate ChainOk(h: seq<HistoryRow>) {
    && (forall i, j :: 0 <= i < j < |h| ==> h[i].version < h[j].version && h[i].planId != h[j].planId)
    && (forall i :: 0 <= i < |h| - 1 ==>
          h[i].status == HistoryStatus.Superseded && h[i].supersededBy == Some(h[i + 1].planId))
    && (h != [] ==> h[|h| - 1].status != HistoryStatus.Superseded && h[|h| - 1].supersededBy == None)
  }

  /** The newest row is the stored plan if that plan is valid, and an older one otherwise. */
  predicate NewestRowOk(h: seq<HistoryRow>, p: Plan) {
    if p.valid then
      h != [] && h[|h| - 1] == HistoryRow(p.id, p.version, StatusInHistory(p.status), None)
    else
      forall i :: 0 <= i < |h| ==> h[i].version < p.version && h[i].planId != p.id
  }

  predicate HistoryOk(r: RunRow) {
    ChainOk(r.history) && (r.plan.Some? ==> NewestRowOk(r.history, r.plan.value))
  }

  predicate Core(r: RunRow) {
    StatusOk(r) && LogOk(r) && PlanOk(r) && HistoryOk(r)
  }

  predicate AtMostOneLive(approvals: seq<Approval>) {
    forall i, j :: 0 <= i < j < |approvals| ==> !(IsLivePlanApproval(approvals[i]) && IsLivePlanApproval(approvals[j]))
  }

  predicate LiveAreBound(approvals: seq<Approval>, p: Plan) {
    forall k :: 0 <= k < |approvals| && IsLivePlanApproval(approvals[k]) ==> approvals[k].op == Binding(p)
  }

  /** At most one plan approval is live, and it names the stored plan if that plan is valid. */
  predicate RecordsOk(r: RunRow) {
    AtMostOneLive(r.approvals)
    && match r.plan
       case None => LastPlanApproval(r.approvals).None?
       case Some(p) =>
         p.valid ==>
           && LastPlanApproval(r.approvals).Some?
           && LiveAreBound(r.approvals, p)
           && (p.status == PlanStatus.Approved ==> FirstPendingPlanApproval(r.approvals).None?)
  }

  function UsedIds(r: RunRow): set<string> {
    (set h | h in r.history :: h.planId) + (if r.plan.Some? then {r.plan.value.id} else {})
  }

  /** The planner's contract: a fresh non-empty id, a revision, and tasks that have not started. */
  predicate PlannerOk(r: RunRow, p: Planner) {
    p.Planned? ==>
      p.id != "" && p.id !in UsedIds(r) && p.revision != ""
      && forall k :: 0 <= k < |p.tasks| ==> p.tasks[k].status == TaskStatus.Pending
  }

  predicate OpOk(r: RunRow, op: Op) {
    op.OpCreatePlan? ==> PlannerOk(r, op.planner)
  }

  /** A caller files a plan approval of its own. */
  predicate FilesPlanApproval(op: Op) {
    op.OpRequest? && op.kind == PlanApproval
  }

  // ------------------------------------------------------------ the base

  lemma CreatedRunIsOk(userId: Option<int>)
    ensures Core(CreatedRun(userId)) && RecordsOk(CreatedRun(userId))
    ensures CreatedRun(userId).state == Understanding
  {
    WalkAppend([], Transition(Idle, Understanding));
  }

  // --------------------------------------------------------- transitions

  lemma ActiveLog(r: RunRow)
    requires LogOk(r) && !IsTerminal(r.state)
    ensures LogReachesState(r)
  {}

  lemma MovedKeeps(r: RunRow, to: AgentState)
    requires StatusOk(r) && LogOk(r) && CanTransition(r.state, to)
    ensures StatusOk(Moved(r, to)) && LogReachesState(Moved(r, to))
  {
    WalkAppend(r.log, Transition(r.state, to));
  }

  lemma TransitionKeeps(r: RunRow, to: AgentState)
    requires Core(r)
    ensures Core(TransitionTo(r, to).row)
    ensures RecordsOk(r) ==> RecordsOk(TransitionTo(r, to).row)
  {
    if CanTransition(r.state, to) {
      MovedKeeps(r, to);
    }
  }

  // -------------------------------------------------------- create_plan

  lemma SupersedeKeeps(h: seq<HistoryRow>, p: Plan)
    requires ChainOk(h) && p.valid && p.status == PlanStatus.Ready
    requires forall i :: 0 <= i < |h| ==> h[i].version < p.version && h[i].planId != p.id
    ensures var h' := Supersede(h + [HistoryRow(p.id, p.version, HistoryStatus.Ready, None)], p);
            ChainOk(h') && NewestRowOk(h', p)
  {}

  lemma FreshTasksRespect(ts: seq<Task>)
    requires forall k :: 0 <= k < |ts| ==> ts[k].status == TaskStatus.Pending
    ensures DepsRespected(ts)
  {}

  lemma OlderVersions(r: RunRow)
    requires Core(r)
    ensures forall i :: 0 <= i < |r.history| ==> r.history[i].version < NextVersion(r) && r.history[i].planId in UsedIds(r)
  {
    forall i | 0 <= i < |r.history|
      ensures r.history[i].version < NextVersion(r)
    {
      if i < |r.history| - 1 {
        assert r.history[i].version < r.history[|r.history| - 1].version;
      }
    }
  }

  /** The run once planning has started. */
  function Replanned(r: RunRow): RunRow {
    if r.state in {Idle, Understanding, AwaitingApproval} && CanTransition(r.state, Planning) then Moved(r, Planning) else r
  }

  /** What holds of the ways create_plan can leave a run holds of its result. */
  lemma CreateCases(r: RunRow, force: bool, p: Planner, good: RunRow -> bool)
    requires good(r) && good(Replanned(r))
    requires p.Planned? && !IsTerminal(r.state) ==>
               var after := Replanned(r);
               good(if p.valid then WithValidPlan(after, NewPlan(after, p)) else after.(plan := Some(NewPlan(after, p))))
    ensures good(CreatePlan(r, force, p).row)
  {}

  lemma CreatePlanKeeps(r: RunRow, force: bool, p: Planner)
    requires Core(r) && PlannerOk(r, p)
    ensures Core(CreatePlan(r, force, p).row)
  {
    var good := (after: RunRow) => Core(after);
    TransitionKeeps(r, Planning);
    if p.Planned? && !IsTerminal(r.state) {
      NewPlanKeeps(Replanned(r), p);
    }
    CreateCases(r, force, p, good);
    assert good(CreatePlan(r, force, p).row);
  }

  /** Storing a new plan, valid or not, in an active run. */
  lemma NewPlanKeeps(r: RunRow, p: Planner)
    requires Core(r) && !IsTerminal(r.state) && p.Planned? && PlannerOk(r, p)
    ensures Core(if p.valid then WithValidPlan(r, NewPlan(r, p)) else r.(plan := Some(NewPlan(r, p))))
  {
    OlderVersions(r);
    FreshTasksRespect(p.tasks);
    if p.valid {
      WithValidPlanKeeps(r, NewPlan(r, p));
    }
  }

  lemma WithValidPlanKeeps(r: RunRow, p: Plan)
    requires Core(r) && !IsTerminal(r.state)
    requires p.valid && p.status == PlanStatus.Ready && p.version >= 1 && p.id != "" && p.revision != ""
    requires DepsRespected(p.tasks)
    requires forall i :: 0 <= i < |r.history| ==> r.history[i].version < p.version && r.history[i].planId != p.id
    ensures Core(WithValidPlan(r, p))
  {
    SupersedeKeeps(r.history, p);
    ActiveLog(r);
    var stored := r.(plan := Some(p),
                     history := Supersede(r.history + [HistoryRow(p.id, p.version, HistoryStatus.Ready, None)], p),
                     approvals := ExpireLive(r.approvals));
    if stored.state == Planning {
      MovedKeeps(stored, AwaitingApproval);
    }
  }

  lemma LastPlanApprovalSame(a: seq<Approval>, b: seq<Approval>)
    requires |a| == |b| && forall k :: 0 <= k < |a| ==> a[k].kind == b[k].kind
    ensures LastPlanApproval(a).Some? == LastPlanApproval(b).Some?
  {}

  lemma CreatePlanRecords(r: RunRow, force: bool, p: Planner)
    requires Core(r) && RecordsOk(r) && PlannerOk(r, p)
    ensures RecordsOk(CreatePlan(r, force, p).row)
  {
    var good := (after: RunRow) => RecordsOk(after);
    var r1 := Replanned(r);
    SameRecordsOk(r, r1);
    if p.Planned? && p.valid {
      StoredRecordsOk(r1, NewPlan(r1, p));
    } else if p.Planned? {
      SameRecordsOk(r, r1.(plan := Some(NewPlan(r1, p))));
    }
    CreateCases(r, force, p, good);
    assert good(CreatePlan(r, force, p).row);
  }

  lemma SameRecordsOk(r: RunRow, after: RunRow)
    requires RecordsOk(r) && after.approvals == r.approvals
    requires after.plan == r.plan || (after.plan.Some? && !after.plan.value.valid)
    ensures RecordsOk(after)
  {}

  lemma StoredRecordsOk(r: RunRow, p: Plan)
    requires p.valid && p.status == PlanStatus.Ready
    ensures RecordsOk(WithValidPlan(r, p))
  {
    FreshRecordOk(r.approvals, p);
  }

  /** After expiry the new record is the only live one. */
  lemma FreshRecordOk(approvals: seq<Approval>, p: Plan)
    ensures var after := ExpireLive(approvals) + [Approval(PlanApproval, ApprovalStatus.Pending, Binding(p), 0)];
            AtMostOneLive(after) && LiveAreBound(after, p) && LastPlanApproval(after) == Some(|approvals|)
  {
    var was := ExpireLive(approvals);
    assert forall k :: 0 <= k < |was| ==> !IsLivePlanApproval(was[k]);
    var after := was + [Approval(PlanApproval, ApprovalStatus.Pending, Binding(p), 0)];
    assert after[|was|].kind == PlanApproval;
  }

  // -------------------------------------------- approve_plan, reject_plan

  lemma {:induction false} FindNewest(h: seq<HistoryRow>, p: Plan)
    requires ChainOk(h) && NewestRowOk(h, p)
    ensures FindRow(h, p.id) == if p.valid then Some(|h| - 1) else None
  {
    if p.valid {
      var k := FindRow(h, p.id);
      assert h[|h| - 1].planId == p.id;
      assert k.Some?;
    }
  }

  /** Resolving the stored plan marks the newest history row if the plan is valid, and no row otherwise. */
  lemma MarkedKeeps(h: seq<HistoryRow>, p: Plan, status: PlanStatus)
    requires ChainOk(h) && NewestRowOk(h, p) && status in {PlanStatus.Approved, PlanStatus.Rejected}
    ensures var h' := Marked(h, p.id, StatusInHistory(status));
            && ChainOk(h') && NewestRowOk(h', p.(status := status))
            && |h'| == |h| && forall k :: 0 <= k < |h| - 1 ==> h'[k] == h[k]
    ensures !p.valid ==> Marked(h, p.id, StatusInHistory(status)) == h
  {
    MarkedIs(h, p, StatusInHistory(status));
    if p.valid {
      NewestKeeps(h, StatusInHistory(status));
    }
  }

  lemma MarkedIs(h: seq<HistoryRow>, p: Plan, status: HistoryStatus)
    requires ChainOk(h) && NewestRowOk(h, p)
    ensures p.valid ==> h != []
    ensures Marked(h, p.id, status) == if p.valid then h[|h| - 1 := h[|h| - 1].(status := status)] else h
  {
    FindNewest(h, p);
  }

  /** The newest row may have any status but SUPERSEDED. */
  lemma NewestKeeps(h: seq<HistoryRow>, status: HistoryStatus)
    requires ChainOk(h) && h != [] && status != HistoryStatus.Superseded
    ensures ChainOk(h[|h| - 1 := h[|h| - 1].(status := status)])
  {}

  lemma ApprovePlanKeeps(r: RunRow, user: Option<int>, now: int)
    requires Core(r)
    ensures Core(ApprovePlan(r, user, now).row)
  {
    if r.plan.Some? {
      MarkedKeeps(r.history, r.plan.value, PlanStatus.Approved);
    }
  }

  lemma RejectPlanKeeps(r: RunRow, user: Option<int>, now: int)
    requires Core(r)
    ensures Core(RejectPlan(r, user, now).row)
  {
    if !Foreign(r, user) && r.state == AwaitingApproval {
      MovedKeeps(r, AgentState.Cancelled);
      var after := RejectPlan(r, user, now).row;
      assert StatusOk(after) && LogReachesState(after);
      if r.plan.Some? {
        var p := r.plan.value.(status := PlanStatus.Rejected);
        MarkedKeeps(r.history, r.plan.value, PlanStatus.Rejected);
        assert after.plan == Some(p) && after.history == Marked(r.history, p.id, HistoryStatus.Rejected);
      }
    }
  }

  /** Changing the status of one record without reviving it keeps the record invariants. */
  lemma ResolveOneKeeps(r: RunRow, k: nat, verdict: ApprovalStatus, now: int)
    requires RecordsOk(r) && k < |r.approvals| && r.approvals[k].status == ApprovalStatus.Pending
    requires verdict != ApprovalStatus.Pending
    ensures RecordsOk(r.(approvals := r.approvals[k := Resolved(r.approvals[k], verdict, now)]))
  {
    var after := r.approvals[k := Resolved(r.approvals[k], verdict, now)];
    LastPlanApprovalSame(r.approvals, after);
    StaysInOrder(r.approvals, after);
    if FirstPendingPlanApproval(r.approvals).None? {
      assert forall j :: 0 <= j < |after| ==> !IsPendingPlanApproval(after[j]);
    }
  }

  /** No record comes alive and no subject changes. */
  lemma StaysInOrder(a: seq<Approval>, b: seq<Approval>)
    requires |a| == |b|
    requires forall j :: 0 <= j < |a| && IsLivePlanApproval(b[j]) ==> IsLivePlanApproval(a[j]) && b[j].op == a[j].op
    ensures AtMostOneLive(a) ==> AtMostOneLive(b)
    ensures forall p :: LiveAreBound(a, p) ==> LiveAreBound(b, p)
  {}

  lemma ApprovePlanRecords(r: RunRow, user: Option<int>, now: int)
    requires Core(r) && RecordsOk(r)
    ensures RecordsOk(ApprovePlan(r, user, now).row)
  {
    if !Foreign(r, user) && r.state == AwaitingApproval && r.plan.Some? && r.plan.value.status == PlanStatus.Ready {
      ApproveRecordOk(r, now);
    }
  }

  /** The only live record, if it is pending, becomes approved; then none is pending. */
  lemma ApproveRecordOk(r: RunRow, now: int)
    requires RecordsOk(r) && r.plan.Some? && r.plan.value.valid
    ensures var q := r.plan.value.(status := PlanStatus.Approved);
            RecordsOk(r.(plan := Some(q), approvals := ApproveRecord(r.approvals, q, now)))
  {
    var k := FirstPendingPlanApproval(r.approvals);
    if k.Some? {
      ResolveOneKeeps(r, k.value, ApprovalStatus.Approved, now);
      var after := ApproveRecord(r.approvals, r.plan.value, now);
      assert IsLivePlanApproval(r.approvals[k.value]);
      assert forall j :: 0 <= j < |after| && j != k.value ==> !IsLivePlanApproval(r.approvals[j]);
    }
  }

  /** Taking live records away keeps the record invariants. */
  lemma FewerLiveKeeps(r: RunRow, after: RunRow)
    requires RecordsOk(r) && |after.approvals| == |r.approvals|
    requires after.plan.None? <==> r.plan.None?
    requires r.plan.Some? ==> after.plan.value == r.plan.value.(status := PlanStatus.Rejected)
    requires forall k :: 0 <= k < |r.approvals| ==>
               after.approvals[k].kind == r.approvals[k].kind && after.approvals[k].op == r.approvals[k].op
    requires forall k :: 0 <= k < |r.approvals| && IsLivePlanApproval(after.approvals[k]) ==>
               IsLivePlanApproval(r.approvals[k])
    ensures RecordsOk(after)
  {
    LastPlanApprovalSame(r.approvals, after.approvals);
  }

  lemma RejectPlanRecords(r: RunRow, user: Option<int>, now: int)
    requires Core(r) && RecordsOk(r)
    ensures RecordsOk(RejectPlan(r, user, now).row)
  {
    if !Foreign(r, user) && r.state == AwaitingApproval {
      var after := RejectPlan(r, user, now).row;
      assert after.approvals == RejectPending(r.approvals, now);
      FewerLiveKeeps(r, after);
    }
  }

  // ------------------------------------------------- tasks and recovery

  /** A gate that opens has seen an approved, valid plan and an approved record. */
  lemma GateMeans(r: RunRow, user: Option<int>, id: string, v: Option<int>, current: string)
    requires Gate(r, user, id, v, current) == Done
    ensures r.plan.Some? && r.plan.value.status == PlanStatus.Approved && r.plan.value.valid
    ensures NewestApproved(r.approvals).Some? && r.state in {AwaitingApproval, Executing}
  {}

  lemma StartKeeps(r: RunRow, user: Option<int>, current: string)
    requires Core(r)
    ensures Core(StartExecution(r, user, current).row)
    ensures RecordsOk(r) ==> RecordsOk(StartExecution(r, user, current).row)
  {
    if !Foreign(r, user) && r.state == AwaitingApproval && Gate(r, user, "", None, current) == Done {
      GateMeans(r, user, "", None, current);
      SettledRespects(r.plan.value.tasks);
      MovedKeeps(r, Executing);
    }
  }

  lemma ExecuteKeeps(r: RunRow, current: string, outcome: ExecOutcome)
    requires Core(r)
    ensures Core(ExecuteNextTask(r, current, outcome).row)
    ensures RecordsOk(r) ==> RecordsOk(ExecuteNextTask(r, current, outcome).row)
  {
    if ReachesExecutor(r, current) {
      ExecutionRespects(r.plan.value.tasks, outcome);
    }
  }

  lemma BlockTasksRespects(ts: seq<Task>, which: set<TaskStatus>)
    requires DepsRespected(ts) && TaskStatus.Passed !in which
    ensures DepsRespected(BlockTasks(ts, which))
  {
    var r := BlockTasks(ts, which);
    forall i | 0 <= i < |r| && r[i].status !in {TaskStatus.Pending, Blocked, Skipped} ensures AllMet(r, i) {
      assert AllMet(ts, i);
      forall d | d in r[i].deps ensures Met(r, d) {
        ResolveShape(r, ts, d);
        assert Met(ts, d);
      }
    }
  }

  lemma CancelKeeps(r: RunRow)
    requires Core(r)
    ensures Core(CancelRun(r).row)
    ensures RecordsOk(r) ==> RecordsOk(CancelRun(r).row)
    ensures !IsTerminal(r.state) ==> LogStopsAtCancel(CancelRun(r).row)
  {
    if r.plan.Some? {
      BlockTasksRespects(r.plan.value.tasks, {TaskStatus.Pending, TaskStatus.Ready});
    }
  }

  lemma RecoverKeeps(r: RunRow)
    requires Core(r)
    ensures Core(Recover(r))
    ensures RecordsOk(r) ==> RecordsOk(Recover(r))
    ensures !IsTerminal(r.state) ==> LogEndsInRecovery(Recover(r))
  {
    if r.plan.Some? {
      BlockTasksRespects(r.plan.value.tasks, {Running, TaskStatus.Verifying});
    }
    if !IsTerminal(r.state) {
      assert Recover(r).log[..|r.log|] == r.log;
    }
  }

  // ------------------------------------------------------ action approvals

  lemma RequestKeeps(r: RunRow, kind: ActionType, op: Operation)
    requires Core(r)
    ensures Core(RequestActionApproval(r, kind, op))
  {
    if r.state == Executing {
      MovedKeeps(r, AwaitingApproval);
    }
  }

  /** Filing one more request keeps the records in order exactly when it is no second live plan approval. */
  lemma RequestOneLive(r: RunRow, kind: ActionType, op: Operation)
    requires AtMostOneLive(r.approvals)
    ensures AtMostOneLive(RequestActionApproval(r, kind, op).approvals)
            <==> kind != PlanApproval || !HasLive(r.approvals)
  {
    var after := RequestActionApproval(r, kind, op).approvals;
    var n := |r.approvals|;
    assert after == r.approvals + [Approval(kind, ApprovalStatus.Pending, op, 0)];
    if kind == PlanApproval && HasLive(r.approvals) {
      var k :| 0 <= k < n && IsLivePlanApproval(r.approvals[k]);
      assert IsLivePlanApproval(after[k]) && IsLivePlanApproval(after[n]);
    } else {
      forall i, j | 0 <= i < j < |after|
        ensures !(IsLivePlanApproval(after[i]) && IsLivePlanApproval(after[j]))
      {
        assert after[i] == r.approvals[i];
      }
    }
  }

  /** A filed plan approval that leaves the records in order. */
  predicate HarmlessFiling(r: RunRow, op: Operation) {
    && !HasLive(r.approvals) && r.plan.Some?
    && (r.plan.value.valid ==> op == Binding(r.plan.value) && r.plan.value.status != PlanStatus.Approved)
  }

  predicate FilesHarm(r: RunRow, op: Op) {
    FilesPlanApproval(op) && !HarmlessFiling(r, op.op)
  }

  lemma RequestRecords(r: RunRow, kind: ActionType, op: Operation)
    requires RecordsOk(r)
    ensures RecordsOk(RequestActionApproval(r, kind, op)) <==> kind != PlanApproval || HarmlessFiling(r, op)
  {
    RequestOneLive(r, kind, op);
    var after := RequestActionApproval(r, kind, op).approvals;
    var n := |r.approvals|;
    assert after == r.approvals + [Approval(kind, ApprovalStatus.Pending, op, 0)];
    assert forall k :: 0 <= k < n ==> after[k] == r.approvals[k];
    if kind == PlanApproval {
      assert IsLivePlanApproval(after[n]) && IsPendingPlanApproval(after[n]) && after[n].op == op;
    }
  }

  lemma ResolveActionKeeps(r: RunRow, k: nat, verdict: ApprovalStatus, now: int)
    requires Core(r) && verdict != ApprovalStatus.Pending
    ensures Core(ResolveAction(r, k, verdict, now).row)
    ensures RecordsOk(r) ==> RecordsOk(ResolveAction(r, k, verdict, now).row)
  {
    if k < |r.approvals| && r.approvals[k].status == ApprovalStatus.Pending {
      var r1 := r.(approvals := r.approvals[k := Resolved(r.approvals[k], verdict, now)]);
      if RecordsOk(r) {
        ResolveOneKeeps(r, k, verdict, now);
      }
      TransitionKeeps(r1, Executing);
    }
  }

  // ------------------------------------------------------------ every step

  /** What holds of the result of the operation that is called holds of the result of Apply. */
  lemma ApplyCases(r: RunRow, op: Op, good: RunRow -> bool)
    requires match op
             case OpTransition(to) => good(TransitionTo(r, to).row)
             case OpCreatePlan(force, planner) => good(CreatePlan(r, force, planner).row)
             case OpApprovePlan(user, now) => good(ApprovePlan(r, user, now).row)
             case OpRejectPlan(user, now) => good(RejectPlan(r, user, now).row)
             case OpStart(user, current) => good(StartExecution(r, user, current).row)
             case OpExecute(current, outcome) => good(ExecuteNextTask(r, current, outcome).row)
             case OpComplete(success) => good(CompleteRun(r, success).row)
             case OpRequest(kind, o) => good(RequestActionApproval(r, kind, o))
             case OpApproveAction(k, now) => good(ResolveAction(r, k, ApprovalStatus.Approved, now).row)
             case OpRejectAction(k, now) => good(ResolveAction(r, k, ApprovalStatus.Rejected, now).row)
             case OpCancel => good(CancelRun(r).row)
             case OpRecover => good(Recover(r))
    ensures good(Apply(r, op).row)
  {}

  /** Every operation but a filed request keeps all invariants. */
  lemma ApplyKeepsAll(r: RunRow, op: Op)
    requires Core(r) && OpOk(r, op) && !op.OpRequest?
    ensures Keeps(r, Apply(r, op).row)
  {
    match op
    case OpTransition(to) => TransitionKeeps(r, to);
    case OpCreatePlan(force, planner) =>
      CreatePlanKeeps(r, force, planner);
      if RecordsOk(r) {
        CreatePlanRecords(r, force, planner);
      }
    case OpApprovePlan(user, now) =>
      ApprovePlanKeeps(r, user, now);
      if RecordsOk(r) {
        ApprovePlanRecords(r, user, now);
      }
    case OpRejectPlan(user, now) =>
      RejectPlanKeeps(r, user, now);
      if RecordsOk(r) {
        RejectPlanRecords(r, user, now);
      }
    case OpStart(user, current) => StartKeeps(r, user, current);
    case OpExecute(current, outcome) => ExecuteKeeps(r, current, outcome);
    case OpComplete(success) => CompleteKeeps(r, success);
    case OpApproveAction(k, now) => ResolveActionKeeps(r, k, ApprovalStatus.Approved, now);
    case OpRejectAction(k, now) => ResolveActionKeeps(r, k, ApprovalStatus.Rejected, now);
    case OpCancel => CancelKeeps(r);
    case OpRecover => RecoverKeeps(r);
    var good := (after: RunRow) => Keeps(r, after);
    ApplyCases(r, op, good);
    assert good(Apply(r, op).row);
  }

  /** The core invariant is kept, and the record invariants are if they hold. */
  predicate Keeps(r: RunRow, after: RunRow) {
    Core(after) && (RecordsOk(r) ==> RecordsOk(after))
  }

  lemma CompleteKeeps(r: RunRow, success: bool)
    requires Core(r)
    ensures Keeps(r, CompleteRun(r, success).row)
  {
    TransitionKeeps(r, if success then Completed else AgentState.Failed);
  }

  /** Every operation keeps the core invariant, forged approval requests included. */
  lemma ApplyKeepsCore(r: RunRow, op: Op)
    requires Core(r) && OpOk(r, op)
    ensures Core(Apply(r, op).row)
  {
    if op.OpRequest? {
      RequestKeeps(r, op.kind, op.op);
    } else {
      ApplyKeepsAll(r, op);
    }
  }

  /** Every operation keeps the approval records in order, but for a caller's own harmful PLAN_APPROVAL. */
  lemma ApplyKeepsRecords(r: RunRow, op: Op)
    requires Core(r) && RecordsOk(r) && OpOk(r, op)
    ensures RecordsOk(Apply(r, op).row) <==> !FilesHarm(r, op)
  {
    if op.OpRequest? {
      RequestRecords(r, op.kind, op.op);
    } else {
      ApplyKeepsAll(r, op);
    }
  }
}
