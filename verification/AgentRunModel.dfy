/**
 * The record of one agent run (backend/models/implementation.py) with the rows
 * that belong to it, and what each operation on a run does to it, as functions.
 * The methods of AgentRuns.AgentRun are proved against these
 * functions; RunInvariants and RunHistory prove what the functions guarantee.
 */
module AgentRunModel {
  import opened Basics
  import opened AgentStateMachine
  import opened TaskDag

  datatype ActionType = PlanApproval | ToolExecution | TerminalCommand | GitOperation | FileModification

  datatype ApprovalStatus = Pending | Approved | Rejected | Expired | Cancelled

  /** The fields of `requested_operation` that the gate reads; "" and None stand for absent. */
  datatype Operation = Operation(planId: string, version: Option<int>, revision: string)

  datatype Approval = Approval(kind: ActionType, status: ApprovalStatus, op: Operation, resolvedAt: int)

  datatype PlanStatus = Ready | Approved | Rejected | Invalid

  /** A stored plan; `valid` is "has a validation result, and it is valid". */
  datatype Plan = Plan(id: string, version: int, status: PlanStatus, valid: bool, revision: string, tasks: seq<Task>)

  datatype HistoryStatus = Ready | Approved | Rejected | Superseded

  datatype HistoryRow = HistoryRow(planId: string, version: int, status: HistoryStatus, supersededBy: Option<string>)

  /** One run: its row, its plan, its approval requests and plan history (oldest first), its audit log. */
  datatype RunRow = RunRow(
    userId: Option<int>,
    state: AgentState,
    status: LegacyStatus,
    completed: bool,              // completed_at is set
    plan: Option<Plan>,
    approvals: seq<Approval>,
    history: seq<HistoryRow>,
    log: seq<Transition>)

  datatype Error =
    | InvalidTransition | TerminalRun | NotOwner | WrongState | NoPlan | PlanNotReady | PlanNotApproved
    | PlanNotValid | NoApproval | PlanIdMismatch | VersionMismatch | TargetIdMismatch
    | TargetVersionMismatch | RevisionMismatch | PlanningFailed | ApprovalNotFound | ApprovalNotPending
    | TaskNotReady | TaskNotFound | ExecutionRaised

  datatype Reply = Done | Refused(error: Error)

  /** The state an operation leaves behind and whether it returned or raised. */
  datatype Outcome = Outcome(row: RunRow, reply: Reply)

  /** What the planning orchestrator hands back; the version is the one it was asked for. */
  datatype Planner = PlannerRaised | Planned(id: string, valid: bool, revision: string, tasks: seq<Task>)

  // ---------------------------------------------------------------- creation

  /** The row that create_run inserts. */
  function NewRow(userId: Option<int>): RunRow {
    RunRow(userId, Idle, Queued, false, None, [], [], [])
  }

  function CreatedRun(userId: Option<int>): RunRow {
    Moved(NewRow(userId), Understanding)
  }

  // ---------------------------------------------------- transition_state

  /** The effect of a validated transition. */
  function Moved(r: RunRow, to: AgentState): RunRow {
    r.(state := to, status := Legacy(to), completed := r.completed || IsTerminal(to),
       log := r.log + [Transition(r.state, to)])
  }

  function TransitionTo(r: RunRow, to: AgentState): Outcome {
    if CanTransition(r.state, to) then Outcome(Moved(r, to), Done)
    else Outcome(r, Refused(InvalidTransition))
  }

  // ----------------------------------------------------------- approvals

  predicate IsLivePlanApproval(a: Approval) {
    a.kind == PlanApproval && a.status in {ApprovalStatus.Pending, ApprovalStatus.Approved}
  }

  predicate IsPendingPlanApproval(a: Approval) {
    a.kind == PlanApproval && a.status == ApprovalStatus.Pending
  }

  predicate IsApprovedPlanApproval(a: Approval) {
    a.kind == PlanApproval && a.status == ApprovalStatus.Approved
  }

  predicate HasLive(approvals: seq<Approval>) {
    exists k :: 0 <= k < |approvals| && IsLivePlanApproval(approvals[k])
  }

  predicate HasPending(approvals: seq<Approval>) {
    exists k :: 0 <= k < |approvals| && approvals[k].status == ApprovalStatus.Pending
  }

  function ExpireLive(approvals: seq<Approval>): (r: seq<Approval>)
    ensures |r| == |approvals|
  {
    seq(|approvals|, k requires 0 <= k < |approvals| =>
      if IsLivePlanApproval(approvals[k]) then approvals[k].(status := ApprovalStatus.Expired) else approvals[k])
  }

  function RejectPending(approvals: seq<Approval>, now: int): (r: seq<Approval>)
    ensures |r| == |approvals|
  {
    seq(|approvals|, k requires 0 <= k < |approvals| =>
      if IsPendingPlanApproval(approvals[k])
      then approvals[k].(status := ApprovalStatus.Rejected, resolvedAt := now) else approvals[k])
  }

  /** The oldest pending plan approval. */
  function FirstPendingPlanApproval(approvals: seq<Approval>): (r: Option<nat>)
    ensures r.Some? ==> r.value < |approvals| && IsPendingPlanApproval(approvals[r.value])
    ensures r.None? ==> forall k :: 0 <= k < |approvals| ==> !IsPendingPlanApproval(approvals[k])
    decreases |approvals|
  {
    if approvals == [] then None
    else if IsPendingPlanApproval(approvals[0]) then Some(0)
    else match FirstPendingPlanApproval(approvals[1..])
         case None => None
         case Some(k) => Some(k + 1)
  }

  /** The plan approval requested last, whatever its status. */
  function LastPlanApproval(approvals: seq<Approval>): (r: Option<nat>)
    ensures r.Some? ==> r.value < |approvals| && approvals[r.value].kind == PlanApproval
    ensures r.None? ==> forall k :: 0 <= k < |approvals| ==> approvals[k].kind != PlanApproval
  {
    if approvals == [] then None
    else if approvals[|approvals| - 1].kind == PlanApproval then Some(|approvals| - 1)
    else LastPlanApproval(approvals[..|approvals| - 1])
  }

  /** The gate's query: APPROVED plan approvals by resolved_at, then requested_at, newest first. */
  function NewestApproved(approvals: seq<Approval>): (r: Option<nat>)
    ensures r.Some? ==> r.value < |approvals| && IsApprovedPlanApproval(approvals[r.value])
    ensures r.Some? ==> forall k :: 0 <= k < |approvals| && IsApprovedPlanApproval(approvals[k]) ==>
                          approvals[k].resolvedAt < approvals[r.value].resolvedAt
                          || (approvals[k].resolvedAt == approvals[r.value].resolvedAt && k <= r.value)
    ensures r.None? ==> forall k :: 0 <= k < |approvals| ==> !IsApprovedPlanApproval(approvals[k])
  {
    if approvals == [] then None
    else
      var n := |approvals| - 1;
      var rest := NewestApproved(approvals[..n]);
      if !IsApprovedPlanApproval(approvals[n]) then rest
      else if rest.Some? && approvals[n].resolvedAt < approvals[rest.value].resolvedAt then rest
      else Some(n)
  }

  function Binding(p: Plan): Operation {
    Operation(p.id, Some(p.version), p.revision)
  }

  function Resolved(a: Approval, status: ApprovalStatus, now: int): Approval {
    a.(status := status, resolvedAt := now)
  }

  // -------------------------------------------------------- plan history

  /** Rows of earlier versions become SUPERSEDED by `p` unless they already are. */
  function Supersede(history: seq<HistoryRow>, p: Plan): (r: seq<HistoryRow>)
    ensures |r| == |history|
  {
    seq(|history|, k requires 0 <= k < |history| =>
      if history[k].version < p.version && history[k].status != HistoryStatus.Superseded
      then history[k].(status := HistoryStatus.Superseded, supersededBy := Some(p.id))
      else history[k])
  }

  function FindRow(history: seq<HistoryRow>, planId: string): (r: Option<nat>)
    ensures r.Some? ==> r.value < |history| && history[r.value].planId == planId
                        && forall k :: 0 <= k < r.value ==> history[k].planId != planId
    ensures r.None? ==> forall k :: 0 <= k < |history| ==> history[k].planId != planId
    decreases |history|
  {
    if history == [] then None
    else if history[0].planId == planId then Some(0)
    else match FindRow(history[1..], planId)
         case None => None
         case Some(k) => Some(k + 1)
  }

  function Marked(history: seq<HistoryRow>, planId: string, status: HistoryStatus): seq<HistoryRow> {
    match FindRow(history, planId)
    case None => history
    case Some(k) => history[k := history[k].(status := status)]
  }

  // --------------------------------------------------------- create_plan

  function NextVersion(r: RunRow): int {
    (if r.plan.Some? then r.plan.value.version else 0) + 1
  }

  function NewPlan(r: RunRow, p: Planner): Plan
    requires p.Planned?
  {
    Plan(p.id, NextVersion(r), if p.valid then PlanStatus.Ready else PlanStatus.Invalid, p.valid, p.revision, p.tasks)
  }

  /** create_plan hands back the plan it already has. */
  predicate Reuses(r: RunRow, force: bool) {
    !force && r.state == AwaitingApproval && r.plan.Some? && r.plan.value.valid && HasLive(r.approvals)
  }

  function WithValidPlan(r: RunRow, p: Plan): RunRow {
    var stored := r.(plan := Some(p),
                     history := Supersede(r.history + [HistoryRow(p.id, p.version, HistoryStatus.Ready, None)], p),
                     approvals := ExpireLive(r.approvals));
    var moved := if stored.state == Planning then Moved(stored, AwaitingApproval) else stored;
    moved.(approvals := moved.approvals + [Approval(PlanApproval, ApprovalStatus.Pending, Binding(p), 0)])
  }

  function CreatePlan(r: RunRow, force: bool, p: Planner): Outcome {
    if IsTerminal(r.state) then Outcome(r, Refused(TerminalRun))
    else if Reuses(r, force) then Outcome(r, Done)
    else
      var replan := r.state in {Idle, Understanding, AwaitingApproval};
      if replan && !CanTransition(r.state, Planning) then Outcome(r, Refused(InvalidTransition))
      else
        var r1 := if replan then Moved(r, Planning) else r;
        if p.PlannerRaised? then Outcome(r1, Refused(PlanningFailed))
        else if p.valid then Outcome(WithValidPlan(r1, NewPlan(r1, p)), Done)
        else Outcome(r1.(plan := Some(NewPlan(r1, p))), Done)
  }

  // ------------------------------------------------------ the gate

  predicate Foreign(r: RunRow, user: Option<int>) {
    user.Some? && r.userId.Some? && user != r.userId
  }

  predicate Differ(a: string, b: string) {
    a != "" && b != "" && a != b
  }

  /** assert_execution_authorized: the first check that fails, if any. */
  function Gate(r: RunRow, user: Option<int>, targetId: string, targetVersion: Option<int>, current: string): Reply {
    if Foreign(r, user) then Refused(NotOwner)
    else if r.state !in {AwaitingApproval, Executing} then Refused(WrongState)
    else if r.plan.None? then Refused(NoPlan)
    else if r.plan.value.status != PlanStatus.Approved then Refused(PlanNotApproved)
    else if !r.plan.value.valid then Refused(PlanNotValid)
    else RecordGate(r.approvals, r.plan.value, targetId, targetVersion, current)
  }

  /** The part of the gate that reads the newest approved record. */
  function RecordGate(approvals: seq<Approval>, p: Plan, targetId: string, targetVersion: Option<int>, current: string): Reply {
    if NewestApproved(approvals).None? then Refused(NoApproval)
    else
      var op := approvals[NewestApproved(approvals).value].op;
      if op.planId != "" && op.planId != p.id then Refused(PlanIdMismatch)
      else if op.version.Some? && op.version.value != p.version then Refused(VersionMismatch)
      else if targetId != "" && targetId != p.id then Refused(TargetIdMismatch)
      else if targetVersion.Some? && targetVersion.value != p.version then Refused(TargetVersionMismatch)
      else if Differ(if op.revision != "" then op.revision else p.revision, current) then Refused(RevisionMismatch)
      else Done
  }

  // -------------------------------------------- approve_plan, reject_plan

  function ApproveRecord(approvals: seq<Approval>, p: Plan, now: int): seq<Approval> {
    match FirstPendingPlanApproval(approvals)
    case Some(k) => approvals[k := Resolved(approvals[k], ApprovalStatus.Approved, now)]
    case None =>
      match LastPlanApproval(approvals)
      case Some(k) => approvals
      case None => approvals + [Approval(PlanApproval, ApprovalStatus.Approved, Binding(p), now)]
  }

  function ApprovePlan(r: RunRow, user: Option<int>, now: int): Outcome {
    if Foreign(r, user) then Outcome(r, Refused(NotOwner))
    else if r.state == Executing then Outcome(r, Done)
    else if r.state != AwaitingApproval then Outcome(r, Refused(WrongState))
    else if r.plan.None? then Outcome(r, Refused(NoPlan))
    else
      var p := r.plan.value;
      if p.status == PlanStatus.Approved then Outcome(r, Done)
      else if p.status != PlanStatus.Ready then Outcome(r, Refused(PlanNotReady))
      else
        var q := p.(status := PlanStatus.Approved);
        Outcome(r.(plan := Some(q),
                   history := Marked(r.history, q.id, HistoryStatus.Approved),
                   approvals := ApproveRecord(r.approvals, q, now)), Done)
  }

  function RejectPlan(r: RunRow, user: Option<int>, now: int): Outcome {
    if Foreign(r, user) then Outcome(r, Refused(NotOwner))
    else if r.state == AgentState.Cancelled then Outcome(r, Done)
    else if r.state != AwaitingApproval then Outcome(r, Refused(WrongState))
    else
      var r1 := if r.plan.None? then r
                else r.(plan := Some(r.plan.value.(status := PlanStatus.Rejected)),
                        history := Marked(r.history, r.plan.value.id, HistoryStatus.Rejected));
      TransitionTo(r1.(approvals := RejectPending(r1.approvals, now)), AgentState.Cancelled)
  }

  // ------------------------------------------------------------ task_ops

  ghost function StartExecution(r: RunRow, user: Option<int>, current: string): Outcome {
    if Foreign(r, user) then Outcome(r, Refused(NotOwner))
    else if r.state == Executing then Outcome(r, Done)
    else if r.state != AwaitingApproval then Outcome(r, Refused(WrongState))
    else if Gate(r, user, "", None, current) != Done then Outcome(r, Gate(r, user, "", None, current))
    else
      var p := r.plan.value;
      TransitionTo(r.(plan := Some(p.(tasks := Settled(p.tasks)))), Executing)
  }

  /** execute_next_task gets as far as handing a task to the executor. */
  ghost predicate ReachesExecutor(r: RunRow, current: string) {
    r.state == Executing && Gate(r, None, "", None, current) == Done && CanStart(r.plan.value.tasks)
  }

  ghost function ExecuteNextTask(r: RunRow, current: string, outcome: ExecOutcome): Outcome {
    if r.state != Executing then Outcome(r, Refused(WrongState))
    else if Gate(r, None, "", None, current) != Done then Outcome(r, Gate(r, None, "", None, current))
    else
      var p := r.plan.value;
      if NextReady(Settled(p.tasks)).None? then Outcome(r, Done)
      else if !CanStart(p.tasks) then Outcome(r, Refused(TaskNotReady))
      else if outcome.ExecutorRaised? then Outcome(r, Refused(ExecutionRaised))
      else Outcome(r.(plan := Some(p.(tasks := AfterExecution(p.tasks, outcome)))), Done)
  }

  function CompleteRun(r: RunRow, success: bool): Outcome {
    if r.state !in {Executing, AgentState.Verifying} then Outcome(r, Done)
    else TransitionTo(r, if success then Completed else AgentState.Failed)
  }

  function BlockTasks(ts: seq<Task>, which: set<TaskStatus>): (r: seq<Task>)
    ensures |r| == |ts|
  {
    seq(|ts|, k requires 0 <= k < |ts| =>
      if ts[k].status in which then ts[k].(status := Blocked) else ts[k])
  }

  function WithTasksBlocked(r: RunRow, which: set<TaskStatus>): RunRow {
    if r.plan.None? then r
    else r.(plan := Some(r.plan.value.(tasks := BlockTasks(r.plan.value.tasks, which))))
  }

  /** Restart recovery of one run. The state is overwritten before the log record is built. */
  function Recover(r: RunRow): RunRow {
    if IsTerminal(r.state) then r
    else
      var r1 := WithTasksBlocked(r, {Running, TaskStatus.Verifying});
      r1.(state := AgentState.Failed, status := Unsuccessful, completed := true,
          log := r1.log + [Transition(AgentState.Failed, AgentState.Failed)])
  }

  // -------------------------------------------- action approvals, cancel

  function RequestActionApproval(r: RunRow, kind: ActionType, op: Operation): RunRow {
    var r1 := if r.state == Executing then Moved(r, AwaitingApproval) else r;
    r1.(approvals := r1.approvals + [Approval(kind, ApprovalStatus.Pending, op, 0)])
  }

  /** approve_action and reject_action: resolve, then resume once nothing is pending. */
  function ResolveAction(r: RunRow, k: nat, verdict: ApprovalStatus, now: int): Outcome {
    if k >= |r.approvals| then Outcome(r, Refused(ApprovalNotFound))
    else if r.approvals[k].status != ApprovalStatus.Pending then Outcome(r, Refused(ApprovalNotPending))
    else
      var r1 := r.(approvals := r.approvals[k := Resolved(r.approvals[k], verdict, now)]);
      if r1.state == AwaitingApproval && !HasPending(r1.approvals) then TransitionTo(r1, Executing)
      else Outcome(r1, Done)
  }

  /** The cancellation controller writes the state itself: no log record. */
  function CancelRun(r: RunRow): Outcome {
    if r.state == AgentState.Cancelled then Outcome(r, Done)
    else if IsTerminal(r.state) then Outcome(r, Refused(InvalidTransition))
    else
      var r1 := WithTasksBlocked(r, {TaskStatus.Pending, TaskStatus.Ready});
      Outcome(r1.(state := AgentState.Cancelled, status := Legacy(AgentState.Cancelled), completed := true), Done)
  }

  // ---------------------------------------------------------- operations

  datatype Op =
    | OpTransition(to: AgentState)
    | OpCreatePlan(force: bool, planner: Planner)
    | OpApprovePlan(user: Option<int>, now: int)
    | OpRejectPlan(user: Option<int>, now: int)
    | OpStart(user: Option<int>, current: string)
    | OpExecute(current: string, outcome: ExecOutcome)
    | OpComplete(success: bool)
    | OpRequest(kind: ActionType, op: Operation)
    | OpApproveAction(k: nat, now: int)
    | OpRejectAction(k: nat, now: int)
    | OpCancel
    | OpRecover

  ghost function Apply(r: RunRow, op: Op): Outcome {
    match op
    case OpTransition(to) => TransitionTo(r, to)
    case OpCreatePlan(force, planner) => CreatePlan(r, force, planner)
    case OpApprovePlan(user, now) => ApprovePlan(r, user, now)
    case OpRejectPlan(user, now) => RejectPlan(r, user, now)
    case OpStart(user, current) => StartExecution(r, user, current)
    case OpExecute(current, outcome) => ExecuteNextTask(r, current, outcome)
    case OpComplete(success) => CompleteRun(r, success)
    case OpRequest(kind, o) => Outcome(RequestActionApproval(r, kind, o), Done)
    case OpApproveAction(k, now) => ResolveAction(r, k, ApprovalStatus.Approved, now)
    case OpRejectAction(k, now) => ResolveAction(r, k, ApprovalStatus.Rejected, now)
    case OpCancel => CancelRun(r)
    case OpRecover => Outcome(Recover(r), Done)
  }
}
