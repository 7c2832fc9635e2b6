/**
 * What the operations of AgentRunModel do, field by field instead of operation by
 * operation: exactly which call moves the state, changes the plan, a task, an approval
 * request or the plan history, and how, in terms of the run and the arguments alone.
 * From this follow laws about whole runs: whose calls count, and how requests add up.
 */
module RunOperations {
  import opened Basics
  import opened AgentStateMachine
  import opened TaskDag
  import opened AgentRunModel
  import opened RunInvariants
  import opened RunHistory

  // --------------------------------------------------- when a call has effect

  /** The call is checked for ownership, and comes from a user who is known not to own the run. */
  predicate ByStranger(r: RunRow, op: Op) {
    match op
    case OpApprovePlan(user, _) => user.Some? && r.userId.Some? && user.value != r.userId.value
    case OpRejectPlan(user, _) => user.Some? && r.userId.Some? && user.value != r.userId.value
    case OpStart(user, _) => user.Some? && r.userId.Some? && user.value != r.userId.value
    case _ => false
  }

  predicate IsActive(s: AgentState) {
    s !in {Completed, AgentState.Failed, AgentState.Cancelled}
  }

  /** create_plan finds a valid plan that waits for an answer, or has it, and is not forced. */
  predicate HandsBack(r: RunRow, op: Op) {
    && op.OpCreatePlan? && !op.force && r.state == AwaitingApproval && r.plan.Some? && r.plan.value.valid
    && exists k :: 0 <= k < |r.approvals| && r.approvals[k].kind == PlanApproval
                   && r.approvals[k].status in {ApprovalStatus.Pending, ApprovalStatus.Approved}
  }

  /** create_plan stores what the planner came back with. */
  predicate Stores(r: RunRow, op: Op) {
    op.OpCreatePlan? && op.planner.Planned? && IsActive(r.state) && r.state != Idle && !HandsBack(r, op)
  }

  predicate Approves(r: RunRow, op: Op) {
    && op.OpApprovePlan? && !ByStranger(r, op) && r.state == AwaitingApproval
    && r.plan.Some? && r.plan.value.status == PlanStatus.Ready
  }

  predicate Rejects(r: RunRow, op: Op) {
    op.OpRejectPlan? && !ByStranger(r, op) && r.state == AwaitingApproval
  }

  lemma StoresIs(r: RunRow, op: Op)
    ensures Stores(r, op) <==> StoresPlan(r, op)
    ensures op.OpCreatePlan? ==> (HandsBack(r, op) <==> Reuses(r, op.force))
  {}

  lemma ApprovesIs(r: RunRow, op: Op)
    ensures Approves(r, op) <==> ApprovesStoredPlan(r, op)
  {}

  // ------------------------------------------------------------ the owner

  /** A stranger's call is refused as such, nobody else's is, and it changes nothing. */
  lemma StrangersAreRefused(r: RunRow, op: Op)
    ensures Apply(r, op).reply == Refused(NotOwner) <==> ByStranger(r, op)
    ensures ByStranger(r, op) ==> Apply(r, op).row == r
  {
    match op
    case OpStart(user, current) => GateRefusesStrangers(r, user, "", None, current);
    case OpExecute(current, outcome) => GateRefusesStrangers(r, None, "", None, current);
    case _ =>
  }

  /** The gate on its own says so too, before anything else. */
  lemma GateRefusesStrangers(r: RunRow, user: Option<int>, id: string, version: Option<int>, current: string)
    ensures Gate(r, user, id, version, current) == Refused(NotOwner)
            <==> user.Some? && r.userId.Some? && user.value != r.userId.value
  {}

  lemma OwnerStays(r: RunRow, op: Op)
    ensures Apply(r, op).row.userId == r.userId
  {
    var good := (after: RunRow) => after.userId == r.userId;
    ApplyCases(r, op, good);
    assert good(Apply(r, op).row);
  }

  // -------------------------------------------------------------- the gate

  /** Record `n` is the approved plan approval resolved last, and among those the one requested last. */
  predicate IsNewestApproval(approvals: seq<Approval>, n: nat) {
    && n < |approvals| && approvals[n].kind == PlanApproval && approvals[n].status == ApprovalStatus.Approved
    && forall k :: 0 <= k < |approvals| && approvals[k].kind == PlanApproval && approvals[k].status == ApprovalStatus.Approved ==>
         || approvals[k].resolvedAt < approvals[n].resolvedAt
         || (approvals[k].resolvedAt == approvals[n].resolvedAt && k <= n)
  }

  lemma NewestApprovalIs(approvals: seq<Approval>)
    ensures NewestApproved(approvals).Some? ==> IsNewestApproval(approvals, NewestApproved(approvals).value)
    ensures forall n: nat :: IsNewestApproval(approvals, n) ==> NewestApproved(approvals) == Some(n)
  {
    forall n: nat | IsNewestApproval(approvals, n) ensures NewestApproved(approvals) == Some(n) {
      assert IsApprovedPlanApproval(approvals[n]);
    }
  }

  /** What assert_execution_authorized is called with. */
  datatype Ask = Ask(user: Option<int>, planId: string, version: Option<int>, current: string)

  /** The condition under which the gate may give this answer; the order decides between several. */
  ghost predicate Fails(e: Error, r: RunRow, a: Ask) {
    match e
    case NotOwner => a.user.Some? && r.userId.Some? && a.user.value != r.userId.value
    case WrongState => r.state != AwaitingApproval && r.state != Executing
    case NoPlan => r.plan.None?
    case PlanNotApproved => r.plan.Some? && r.plan.value.status != PlanStatus.Approved
    case PlanNotValid => r.plan.Some? && !r.plan.value.valid
    case NoApproval => forall n: nat :: !IsNewestApproval(r.approvals, n)
    case PlanIdMismatch => r.plan.Some? && exists n: nat ::
      IsNewestApproval(r.approvals, n) && r.approvals[n].op.planId != "" && r.approvals[n].op.planId != r.plan.value.id
    case VersionMismatch => r.plan.Some? && exists n: nat ::
      IsNewestApproval(r.approvals, n) && r.approvals[n].op.version.Some? && r.approvals[n].op.version.value != r.plan.value.version
    case TargetIdMismatch => r.plan.Some? && a.planId != "" && a.planId != r.plan.value.id
    case TargetVersionMismatch => r.plan.Some? && a.version.Some? && a.version.value != r.plan.value.version
    case RevisionMismatch => r.plan.Some? && exists n: nat ::
      && IsNewestApproval(r.approvals, n) && a.current != ""
      && var approved := r.approvals[n].op.revision;
         if approved != "" then approved != a.current
         else r.plan.value.revision != "" && r.plan.value.revision != a.current
    case _ => false
  }

  const GATE_ORDER: seq<Error> := [
    NotOwner, WrongState, NoPlan, PlanNotApproved, PlanNotValid, NoApproval, PlanIdMismatch, VersionMismatch,
    TargetIdMismatch, TargetVersionMismatch, RevisionMismatch]

  /** The answer is the first failure in this order, and the gate opens exactly when nothing fails. */
  ghost predicate IsFirstFailure(reply: Reply, r: RunRow, a: Ask) {
    match reply
    case Done => forall i :: 0 <= i < |GATE_ORDER| ==> !Fails(GATE_ORDER[i], r, a)
    case Refused(e) => exists i :: 0 <= i < |GATE_ORDER| && GATE_ORDER[i] == e && Fails(e, r, a)
                                   && forall j :: 0 <= j < i ==> !Fails(GATE_ORDER[j], r, a)
  }

  lemma FirstFailureIsUnique(x: Reply, y: Reply, r: RunRow, a: Ask)
    requires IsFirstFailure(x, r, a) && IsFirstFailure(y, r, a)
    ensures x == y
  {
    if x.Refused? && y.Refused? {
      var i :| 0 <= i < |GATE_ORDER| && GATE_ORDER[i] == x.error && Fails(x.error, r, a)
               && forall j :: 0 <= j < i ==> !Fails(GATE_ORDER[j], r, a);
      var k :| 0 <= k < |GATE_ORDER| && GATE_ORDER[k] == y.error && Fails(y.error, r, a)
               && forall j :: 0 <= j < k ==> !Fails(GATE_ORDER[j], r, a);
      assert i == k;
    }
  }

  lemma RecordFailures(r: RunRow, a: Ask)
    requires r.plan.Some?
    ensures var n := NewestApproved(r.approvals);
            && (Fails(NoApproval, r, a) <==> n.None?)
            && (Fails(PlanIdMismatch, r, a) <==>
                  n.Some? && r.approvals[n.value].op.planId != "" && r.approvals[n.value].op.planId != r.plan.value.id)
            && (Fails(VersionMismatch, r, a) <==>
                  n.Some? && r.approvals[n.value].op.version.Some? && r.approvals[n.value].op.version.value != r.plan.value.version)
            && (Fails(RevisionMismatch, r, a) <==>
                  n.Some? && Differ(if r.approvals[n.value].op.revision != "" then r.approvals[n.value].op.revision
                                    else r.plan.value.revision, a.current))
  {
    NewestApprovalIs(r.approvals);
  }

  ghost function FirstFailing(r: RunRow, a: Ask, i: nat): Reply
    requires i <= |GATE_ORDER|
    decreases |GATE_ORDER| - i
  {
    if i == |GATE_ORDER| then Done
    else if Fails(GATE_ORDER[i], r, a) then Refused(GATE_ORDER[i])
    else FirstFailing(r, a, i + 1)
  }

  lemma {:induction false} FirstFailingIs(r: RunRow, a: Ask, i: nat)
    requires i <= |GATE_ORDER| && forall j :: 0 <= j < i ==> !Fails(GATE_ORDER[j], r, a)
    ensures IsFirstFailure(FirstFailing(r, a, i), r, a)
    decreases |GATE_ORDER| - i
  {
    if i < |GATE_ORDER| && !Fails(GATE_ORDER[i], r, a) {
      FirstFailingIs(r, a, i + 1);
    }
  }

  lemma RecordGateAnswers(r: RunRow, a: Ask)
    requires r.plan.Some?
    ensures RecordGate(r.approvals, r.plan.value, a.planId, a.version, a.current) == FirstFailing(r, a, 5)
  {
    RecordFailures(r, a);
    assert FirstFailing(r, a, 9) ==
           if a.version.Some? && a.version.value != r.plan.value.version then Refused(TargetVersionMismatch)
           else if Fails(RevisionMismatch, r, a) then Refused(RevisionMismatch) else Done by {
      assert FirstFailing(r, a, 11) == Done;
      assert FirstFailing(r, a, 10) == if Fails(RevisionMismatch, r, a) then Refused(RevisionMismatch) else Done;
    }
    assert FirstFailing(r, a, 7) ==
           if Fails(VersionMismatch, r, a) then Refused(VersionMismatch)
           else if a.planId != "" && a.planId != r.plan.value.id then Refused(TargetIdMismatch)
           else FirstFailing(r, a, 9) by {
      assert FirstFailing(r, a, 8) ==
             if a.planId != "" && a.planId != r.plan.value.id then Refused(TargetIdMismatch) else FirstFailing(r, a, 9);
    }
    assert FirstFailing(r, a, 6) == if Fails(PlanIdMismatch, r, a) then Refused(PlanIdMismatch) else FirstFailing(r, a, 7);
  }

  lemma PlanGateAnswers(r: RunRow, a: Ask)
    ensures FirstFailing(r, a, 2) ==
            if r.plan.None? then Refused(NoPlan)
            else if r.plan.value.status != PlanStatus.Approved then Refused(PlanNotApproved)
            else if !r.plan.value.valid then Refused(PlanNotValid)
            else FirstFailing(r, a, 5)
  {
    assert FirstFailing(r, a, 4) == if Fails(PlanNotValid, r, a) then Refused(PlanNotValid) else FirstFailing(r, a, 5);
    assert FirstFailing(r, a, 3) == if Fails(PlanNotApproved, r, a) then Refused(PlanNotApproved) else FirstFailing(r, a, 4);
  }

  lemma RunGateAnswers(r: RunRow, a: Ask)
    ensures FirstFailing(r, a, 0) ==
            if Fails(NotOwner, r, a) then Refused(NotOwner)
            else if Fails(WrongState, r, a) then Refused(WrongState)
            else FirstFailing(r, a, 2)
  {
    assert FirstFailing(r, a, 1) == if Fails(WrongState, r, a) then Refused(WrongState) else FirstFailing(r, a, 2);
  }

  lemma GateIsFirstFailing(r: RunRow, a: Ask)
    ensures Gate(r, a.user, a.planId, a.version, a.current) == FirstFailing(r, a, 0)
  {
    RunGateAnswers(r, a);
    PlanGateAnswers(r, a);
    if r.plan.Some? {
      RecordGateAnswers(r, a);
    }
  }

  /** assert_execution_authorized makes its checks in this order. */
  lemma GateAnswers(r: RunRow, a: Ask)
    ensures IsFirstFailure(Gate(r, a.user, a.planId, a.version, a.current), r, a)
  {
    FirstFailingIs(r, a, 0);
    GateIsFirstFailing(r, a);
  }

  // -------------------------------------------------------------- the state

  /** The call takes the run to the new state `s`. */
  ghost predicate LeadsTo(r: RunRow, op: Op, s: AgentState) {
    match op
    case OpTransition(to) => s == to && CanTransition(r.state, to)
    case OpCreatePlan(_, p) =>
      && !HandsBack(r, op)
      && if p.Planned? && p.valid then s == AwaitingApproval && r.state in {Understanding, Planning}
         else s == Planning && r.state in {Understanding, AwaitingApproval}
    case OpApprovePlan(_, _) => false
    case OpRejectPlan(_, _) => s == AgentState.Cancelled && Rejects(r, op)
    case OpStart(user, current) =>
      s == Executing && r.state == AwaitingApproval && IsFirstFailure(Done, r, Ask(user, "", None, current))
    case OpExecute(_, _) => false
    case OpComplete(success) =>
      s == (if success then Completed else AgentState.Failed) && r.state in {Executing, AgentState.Verifying}
    case OpRequest(_, _) => s == AwaitingApproval && r.state == Executing
    case OpApproveAction(k, _) => s == Executing && r.state == AwaitingApproval && OnlyPending(r.approvals, k)
    case OpRejectAction(k, _) => s == Executing && r.state == AwaitingApproval && OnlyPending(r.approvals, k)
    case OpCancel => s == AgentState.Cancelled && IsActive(r.state)
    case OpRecover => s == AgentState.Failed && IsActive(r.state)
  }

  ghost predicate StateAccount(r: RunRow, op: Op, after: RunRow) {
    forall s :: s != r.state ==> (after.state == s <==> LeadsTo(r, op, s))
  }

  /** Exactly which calls move a run, and where to. */
  lemma StateMoves(r: RunRow, op: Op)
    ensures StateAccount(r, op, Apply(r, op).row)
  {
    if op.OpCreatePlan? {
      CreateMovesState(r, op);
    } else if op.OpStart? {
      StartMovesState(r, op);
    } else if op.OpExecute? {
      ExecuteIsQuiet(r, op.current, op.outcome);
    } else if op.OpApproveAction? {
      ResolveMovesState(r, op, op.k, ApprovalStatus.Approved, op.now);
    } else if op.OpRejectAction? {
      ResolveMovesState(r, op, op.k, ApprovalStatus.Rejected, op.now);
    }
    var good := (after: RunRow) => StateAccount(r, op, after);
    ApplyCases(r, op, good);
    assert good(Apply(r, op).row);
  }

  lemma CreateMovesState(r: RunRow, op: Op)
    requires op.OpCreatePlan?
    ensures StateAccount(r, op, CreatePlan(r, op.force, op.planner).row)
  {
    StoresIs(r, op);
  }

  lemma StartMovesState(r: RunRow, op: Op)
    requires op.OpStart?
    ensures StateAccount(r, op, StartExecution(r, op.user, op.current).row)
  {
    var a := Ask(op.user, "", None, op.current);
    GateAnswers(r, a);
    if IsFirstFailure(Done, r, a) {
      FirstFailureIsUnique(Gate(r, op.user, "", None, op.current), Done, r, a);
      assert !Fails(GATE_ORDER[0], r, a);
    }
  }

  lemma ResolveMovesState(r: RunRow, op: Op, k: nat, verdict: ApprovalStatus, now: int)
    requires op == OpApproveAction(k, now) || op == OpRejectAction(k, now)
    requires verdict != ApprovalStatus.Pending
    ensures StateAccount(r, op, ResolveAction(r, k, verdict, now).row)
  {
    if r.state == AwaitingApproval {
      ResolveBypasses(r, k, verdict, now);
    }
  }

  // --------------------------------------------------------------- the plan

  /** Only storing replaces the plan; only approve_plan and reject_plan change its status. */
  predicate PlanAccount(r: RunRow, op: Op, after: Option<Plan>) {
    if Stores(r, op) then
      var p := op.planner;
      after == Some(Plan(p.id, (if r.plan.Some? then r.plan.value.version else 0) + 1,
                         if p.valid then PlanStatus.Ready else PlanStatus.Invalid, p.valid, p.revision, p.tasks))
    else if r.plan.None? then after.None?
    else
      && after.Some?
      && after.value == r.plan.value.(
           status := if Approves(r, op) then PlanStatus.Approved
                     else if Rejects(r, op) then PlanStatus.Rejected else r.plan.value.status,
           tasks := after.value.tasks)
  }

  lemma PlanMoves(r: RunRow, op: Op)
    ensures PlanAccount(r, op, Apply(r, op).row.plan)
  {
    if op.OpCreatePlan? {
      CreateMovesPlan(r, op);
    } else if op.OpApprovePlan? {
      ApproveMovesPlan(r, op);
    } else if op.OpRejectPlan? {
      RejectMovesPlan(r, op);
    } else {
      OthersKeepPlan(r, op);
    }
  }

  lemma CreateMovesPlan(r: RunRow, op: Op)
    requires op.OpCreatePlan?
    ensures PlanAccount(r, op, CreatePlan(r, op.force, op.planner).row.plan)
  {
    StoresIs(r, op);
  }

  lemma ApproveMovesPlan(r: RunRow, op: Op)
    requires op.OpApprovePlan?
    ensures PlanAccount(r, op, ApprovePlan(r, op.user, op.now).row.plan)
  {}

  lemma RejectMovesPlan(r: RunRow, op: Op)
    requires op.OpRejectPlan?
    ensures PlanAccount(r, op, RejectPlan(r, op.user, op.now).row.plan)
  {}

  /** A task that waits is blocked by a cancellation, one under way by a recovery. */
  predicate Blocks(r: RunRow, op: Op, t: Task) {
    || (op.OpCancel? && IsActive(r.state) && t.status in {TaskStatus.Pending, TaskStatus.Ready})
    || (op.OpRecover? && IsActive(r.state) && t.status in {Running, TaskStatus.Verifying})
  }

  /** What a call that stores no plan does to the tasks of the plan there is. */
  ghost predicate TaskAccount(r: RunRow, op: Op, after: Option<Plan>)
    requires r.plan.Some?
  {
    && after.Some?
    && var was, left := r.plan.value.tasks, after.value.tasks;
       if op.OpStart? && LeadsTo(r, op, Executing) then left == Settled(was)
       else if op.OpExecute? && ReachesExecutor(r, op.current) && !op.outcome.ExecutorRaised?
       then left == AfterExecution(was, op.outcome)
       else |left| == |was| && forall j :: 0 <= j < |was| ==>
              left[j] == if Blocks(r, op, was[j]) then was[j].(status := Blocked) else was[j]
  }

  lemma TasksMoveExactly(r: RunRow, op: Op)
    requires r.plan.Some? && !Stores(r, op)
    ensures TaskAccount(r, op, Apply(r, op).row.plan)
  {
    StoresIs(r, op);
    if op.OpStart? {
      StartMovesTasks(r, op);
    } else if op.OpExecute? {
      ExecuteIs(r, op.current, op.outcome);
    } else if op.OpCreatePlan? {
      CreateKeepsTasks(r, op);
    } else if op.OpApprovePlan? || op.OpRejectPlan? {
      ResolvingKeepsTasks(r, op);
    } else {
      OtherTasks(r, op);
    }
  }

  lemma StartMovesTasks(r: RunRow, op: Op)
    requires r.plan.Some? && op.OpStart?
    ensures TaskAccount(r, op, StartExecution(r, op.user, op.current).row.plan)
  {
    var a := Ask(op.user, "", None, op.current);
    GateAnswers(r, a);
    if IsFirstFailure(Done, r, a) {
      FirstFailureIsUnique(Gate(r, op.user, "", None, op.current), Done, r, a);
      assert !Fails(GATE_ORDER[0], r, a);
    }
  }

  lemma OtherTasks(r: RunRow, op: Op)
    requires r.plan.Some? && !op.OpStart? && !op.OpExecute? && !op.OpCreatePlan? && !op.OpApprovePlan? && !op.OpRejectPlan?
    ensures TaskAccount(r, op, Apply(r, op).row.plan)
  {
    if op.OpRecover? {
      RecoverMovesTasks(r, op);
    }
    var good := (after: RunRow) => TaskAccount(r, op, after.plan);
    ApplyCases(r, op, good);
    assert good(Apply(r, op).row);
  }

  lemma RecoverMovesTasks(r: RunRow, op: Op)
    requires r.plan.Some? && op.OpRecover?
    ensures TaskAccount(r, op, Recover(r).plan)
  {
    if IsActive(r.state) {
      assert Recover(r).plan.value.tasks == BlockTasks(r.plan.value.tasks, {Running, TaskStatus.Verifying});
    }
  }

  // ------------------------------------------------------------ the records

  predicate IsOldestPending(approvals: seq<Approval>, k: nat) {
    && k < |approvals| && approvals[k].kind == PlanApproval && approvals[k].status == ApprovalStatus.Pending
    && forall j :: 0 <= j < k ==> !(approvals[j].kind == PlanApproval && approvals[j].status == ApprovalStatus.Pending)
  }

  /** The status of record `k` after the call. */
  function NewStatus(r: RunRow, op: Op, k: nat): ApprovalStatus
    requires k < |r.approvals|
  {
    var a := r.approvals[k];
    if a.status == ApprovalStatus.Pending
       && ((op.OpApproveAction? && op.k == k) || (Approves(r, op) && IsOldestPending(r.approvals, k)))
    then ApprovalStatus.Approved
    else if a.status == ApprovalStatus.Pending
            && ((op.OpRejectAction? && op.k == k) || (Rejects(r, op) && a.kind == PlanApproval))
    then ApprovalStatus.Rejected
    else if Stores(r, op) && op.planner.valid && a.kind == PlanApproval
            && a.status in {ApprovalStatus.Pending, ApprovalStatus.Approved}
    then ApprovalStatus.Expired
    else a.status
  }

  /** When record `k` was resolved, after the call: expiry does not count. */
  function NewTime(r: RunRow, op: Op, k: nat): int
    requires k < |r.approvals|
  {
    if NewStatus(r, op, k) == r.approvals[k].status then r.approvals[k].resolvedAt
    else
      match op
      case OpApproveAction(_, now) => now
      case OpRejectAction(_, now) => now
      case OpApprovePlan(_, now) => now
      case OpRejectPlan(_, now) => now
      case _ => r.approvals[k].resolvedAt
  }

  /** The records the call adds: the one asked for, or one about the stored plan. */
  function NewRecords(r: RunRow, op: Op): seq<Approval> {
    if op.OpRequest? then [Approval(op.kind, ApprovalStatus.Pending, op.op, 0)]
    else if Stores(r, op) && op.planner.valid then
      var version := (if r.plan.Some? then r.plan.value.version else 0) + 1;
      [Approval(PlanApproval, ApprovalStatus.Pending, Operation(op.planner.id, Some(version), op.planner.revision), 0)]
    else if Approves(r, op) && forall k :: 0 <= k < |r.approvals| ==> r.approvals[k].kind != PlanApproval then
      var p := r.plan.value;
      [Approval(PlanApproval, ApprovalStatus.Approved, Operation(p.id, Some(p.version), p.revision), op.now)]
    else []
  }

  predicate RecordAccount(r: RunRow, op: Op, after: seq<Approval>) {
    && |after| == |r.approvals| + |NewRecords(r, op)|
    && after[|r.approvals|..] == NewRecords(r, op)
    && forall k :: 0 <= k < |r.approvals| ==>
         after[k] == r.approvals[k].(status := NewStatus(r, op, k), resolvedAt := NewTime(r, op, k))
  }

  /** Exactly what happens to every approval record, and which records are added. */
  lemma RecordsMoveExactly(r: RunRow, op: Op)
    ensures RecordAccount(r, op, Apply(r, op).row.approvals)
  {
    if op.OpCreatePlan? {
      CreateMovesRecords(r, op);
    } else if op.OpApprovePlan? {
      ApproveMovesRecords(r, op);
    } else if op.OpRejectPlan? {
      RejectMovesRecords(r, op);
    } else if IsQuiet(op) {
      QuietKeeps(r, op);
    } else {
      ActionMovesRecords(r, op);
    }
  }

  lemma CreateMovesRecords(r: RunRow, op: Op)
    requires op.OpCreatePlan?
    ensures RecordAccount(r, op, CreatePlan(r, op.force, op.planner).row.approvals)
  {
    StoresIs(r, op);
    if Stores(r, op) && op.planner.valid {
      StoringMovesRecords(r, op, Replanned(r));
    }
  }

  lemma StoringMovesRecords(r: RunRow, op: Op, r1: RunRow)
    requires Stores(r, op) && op.planner.valid && r1.approvals == r.approvals && r1.plan == r.plan
    ensures RecordAccount(r, op, WithValidPlan(r1, NewPlan(r1, op.planner)).approvals)
  {}

  lemma ApproveMovesRecords(r: RunRow, op: Op)
    requires op.OpApprovePlan?
    ensures RecordAccount(r, op, ApprovePlan(r, op.user, op.now).row.approvals)
  {
    if Approves(r, op) {
      var k := FirstPendingPlanApproval(r.approvals);
      if k.Some? {
        OldestIsFirst(r.approvals, k.value);
        ResolvesOldest(r, op, k.value);
      }
    }
  }

  lemma ResolvesOldest(r: RunRow, op: Op, k: nat)
    requires Approves(r, op) && IsOldestPending(r.approvals, k) && forall j: nat :: IsOldestPending(r.approvals, j) ==> j == k
    ensures RecordAccount(r, op, r.approvals[k := Resolved(r.approvals[k], ApprovalStatus.Approved, op.now)])
  {
    assert NewRecords(r, op) == [];
  }

  lemma {:induction false} OldestIsFirst(approvals: seq<Approval>, k: nat)
    requires FirstPendingPlanApproval(approvals) == Some(k)
    ensures IsOldestPending(approvals, k) && forall j: nat :: IsOldestPending(approvals, j) ==> j == k
    decreases |approvals|
  {
    if k > 0 {
      OldestIsFirst(approvals[1..], k - 1);
      forall j | 0 <= j < k
        ensures !(approvals[j].kind == PlanApproval && approvals[j].status == ApprovalStatus.Pending)
      {
        if j > 0 {
          assert approvals[1..][j - 1] == approvals[j];
        }
      }
    }
  }

  lemma RejectMovesRecords(r: RunRow, op: Op)
    requires op.OpRejectPlan?
    ensures RecordAccount(r, op, RejectPlan(r, op.user, op.now).row.approvals)
  {}

  lemma ActionMovesRecords(r: RunRow, op: Op)
    requires IsActionOp(op)
    ensures RecordAccount(r, op, Apply(r, op).row.approvals)
  {
    match op
    case OpRequest(kind, o) => RequestMovesRecords(r, op);
    case OpApproveAction(k, now) => ResolveMovesRecords(r, op, k, ApprovalStatus.Approved, now);
    case OpRejectAction(k, now) => ResolveMovesRecords(r, op, k, ApprovalStatus.Rejected, now);
  }

  lemma RequestMovesRecords(r: RunRow, op: Op)
    requires op.OpRequest?
    ensures RecordAccount(r, op, RequestActionApproval(r, op.kind, op.op).approvals)
  {}

  lemma ResolveMovesRecords(r: RunRow, op: Op, k: nat, verdict: ApprovalStatus, now: int)
    requires (op == OpApproveAction(k, now) && verdict == ApprovalStatus.Approved)
             || (op == OpRejectAction(k, now) && verdict == ApprovalStatus.Rejected)
    ensures RecordAccount(r, op, ResolveAction(r, k, verdict, now).row.approvals)
  {
    assert NewRecords(r, op) == [];
  }

  // ------------------------------------------------------------ the history

  /** The first history row of a plan gets its new status; a valid new plan supersedes the older rows. */
  predicate HistoryAccount(r: RunRow, op: Op, after: seq<HistoryRow>) {
    if Stores(r, op) && op.planner.valid then
      var version := (if r.plan.Some? then r.plan.value.version else 0) + 1;
      && |after| == |r.history| + 1
      && after[|r.history|] == HistoryRow(op.planner.id, version, HistoryStatus.Ready, None)
      && forall k :: 0 <= k < |r.history| ==>
           after[k] == if r.history[k].version < version && r.history[k].status != HistoryStatus.Superseded
                       then r.history[k].(status := HistoryStatus.Superseded, supersededBy := Some(op.planner.id))
                       else r.history[k]
    else
      && |after| == |r.history|
      && forall k :: 0 <= k < |r.history| ==>
           after[k] == if (Approves(r, op) || Rejects(r, op)) && IsFirstRow(r, k)
                       then r.history[k].(status := if op.OpApprovePlan? then HistoryStatus.Approved else HistoryStatus.Rejected)
                       else r.history[k]
  }

  predicate IsFirstRow(r: RunRow, k: nat) {
    && r.plan.Some? && k < |r.history| && r.history[k].planId == r.plan.value.id
    && forall j :: 0 <= j < k ==> r.history[j].planId != r.plan.value.id
  }

  lemma HistoryMovesExactly(r: RunRow, op: Op)
    ensures HistoryAccount(r, op, Apply(r, op).row.history)
  {
    if op.OpCreatePlan? {
      CreateMovesHistory(r, op);
    } else if op.OpApprovePlan? {
      ApproveMovesHistory(r, op);
    } else if op.OpRejectPlan? {
      RejectMovesHistory(r, op);
    } else {
      OthersKeepPlan(r, op);
    }
  }

  lemma CreateMovesHistory(r: RunRow, op: Op)
    requires op.OpCreatePlan?
    ensures HistoryAccount(r, op, CreatePlan(r, op.force, op.planner).row.history)
  {
    StoresIs(r, op);
  }

  lemma ApproveMovesHistory(r: RunRow, op: Op)
    requires op.OpApprovePlan?
    ensures HistoryAccount(r, op, ApprovePlan(r, op.user, op.now).row.history)
  {}

  lemma RejectMovesHistory(r: RunRow, op: Op)
    requires op.OpRejectPlan?
    ensures HistoryAccount(r, op, RejectPlan(r, op.user, op.now).row.history)
  {}

  // ---------------------------------------------------------------- the log

  /** The log records a call adds: one for each transition it makes, none for a cancellation. */
  function NewLog(r: RunRow, op: Op, to: AgentState): seq<Transition> {
    match op
    case OpCancel => []
    case OpRecover => if IsActive(r.state) then [Transition(AgentState.Failed, AgentState.Failed)] else []
    case OpCreatePlan(_, p) =>
      if r.state !in {Understanding, Planning, AwaitingApproval} || HandsBack(r, op) then []
      else (if r.state != Planning then [Transition(r.state, Planning)] else [])
           + (if p.Planned? && p.valid then [Transition(Planning, AwaitingApproval)] else [])
    case _ => if to != r.state then [Transition(r.state, to)] else []
  }

  predicate LogAccount(r: RunRow, op: Op, after: RunRow) {
    after.log == r.log + NewLog(r, op, after.state)
  }

  lemma LogMoves(r: RunRow, op: Op)
    ensures LogAccount(r, op, Apply(r, op).row)
  {
    if op.OpCreatePlan? {
      CreateMovesLog(r, op);
    } else {
      OthersMoveLog(r, op);
    }
  }

  lemma OthersMoveLog(r: RunRow, op: Op)
    requires !op.OpCreatePlan?
    ensures LogAccount(r, op, Apply(r, op).row)
  {
    if op.OpExecute? {
      ExecuteIsQuiet(r, op.current, op.outcome);
    } else if op.OpStart? {
      StartMovesLog(r, op);
    } else if op.OpApproveAction? {
      ResolveMovesLog(r, op, op.k, ApprovalStatus.Approved, op.now);
    } else if op.OpRejectAction? {
      ResolveMovesLog(r, op, op.k, ApprovalStatus.Rejected, op.now);
    }
    var good := (after: RunRow) => LogAccount(r, op, after);
    ApplyCases(r, op, good);
    assert good(Apply(r, op).row);
  }

  lemma StartMovesLog(r: RunRow, op: Op)
    requires op.OpStart?
    ensures LogAccount(r, op, StartExecution(r, op.user, op.current).row)
  {}

  lemma ResolveMovesLog(r: RunRow, op: Op, k: nat, verdict: ApprovalStatus, now: int)
    requires op == OpApproveAction(k, now) || op == OpRejectAction(k, now)
    ensures LogAccount(r, op, ResolveAction(r, k, verdict, now).row)
  {}

  lemma CreateMovesLog(r: RunRow, op: Op)
    requires op.OpCreatePlan?
    ensures LogAccount(r, op, CreatePlan(r, op.force, op.planner).row)
  {
    StoresIs(r, op);
  }

  // ------------------------------------------------------------- the answer

  /** A refused call changes nothing, except that a planner that raised leaves the run in PLANNING. */
  lemma RefusedChangesNothing(r: RunRow, op: Op)
    ensures Apply(r, op).reply.Refused? && Apply(r, op).row != r ==>
              op.OpCreatePlan? && op.planner.PlannerRaised? && Apply(r, op).row == Moved(r, Planning)
  {}

  /** Which calls of the requests and of the two endings are accepted. */
  lemma ActionsAreAnswered(r: RunRow, op: Op)
    ensures op.OpRequest? || op.OpComplete? || op.OpRecover? ==> Apply(r, op).reply == Done
    ensures op.OpApproveAction? || op.OpRejectAction? ==>
              Apply(r, op).reply == if op.k >= |r.approvals| then Refused(ApprovalNotFound)
                                    else if r.approvals[op.k].status != ApprovalStatus.Pending then Refused(ApprovalNotPending)
                                    else Done
    ensures op.OpCancel? ==>
              Apply(r, op).reply == if r.state in {Completed, AgentState.Failed} then Refused(InvalidTransition) else Done
  {}

  /** What approve_plan and reject_plan answer. */
  lemma PlanAnswers(r: RunRow, op: Op)
    requires (op.OpApprovePlan? || op.OpRejectPlan?) && !ByStranger(r, op)
    ensures op.OpApprovePlan? ==>
              Apply(r, op).reply == if r.state == Executing then Done
                                    else if r.state != AwaitingApproval then Refused(WrongState)
                                    else if r.plan.None? then Refused(NoPlan)
                                    else if r.plan.value.status in {PlanStatus.Ready, PlanStatus.Approved} then Done
                                    else Refused(PlanNotReady)
    ensures op.OpRejectPlan? ==>
              Apply(r, op).reply == if r.state in {AwaitingApproval, AgentState.Cancelled} then Done else Refused(WrongState)
  {}

  /** The gate answers as a call of its own: no user, no target. */
  function NoOne(current: string): Ask {
    Ask(None, "", None, current)
  }

  lemma GateOpens(r: RunRow, a: Ask)
    ensures Gate(r, a.user, a.planId, a.version, a.current) == Done <==> IsFirstFailure(Done, r, a)
    ensures IsFirstFailure(Done, r, a) ==> r.plan.Some?
  {
    GateAnswers(r, a);
    if IsFirstFailure(Done, r, a) {
      FirstFailureIsUnique(Gate(r, a.user, a.planId, a.version, a.current), Done, r, a);
      assert !Fails(GATE_ORDER[2], r, a);
    }
  }

  /** A task is handed to the executor exactly if the run is EXECUTING, nothing stops it at the gate, and one is READY. */
  lemma ReachesExecutorMeans(r: RunRow, current: string)
    ensures ReachesExecutor(r, current) <==>
              && r.state == Executing && r.plan.Some? && IsFirstFailure(Done, r, NoOne(current))
              && exists k: nat :: IsHandedOver(r.plan.value.tasks, k)
  {
    GateOpens(r, NoOne(current));
    if r.plan.Some? {
      CanStartMeans(r.plan.value.tasks);
    }
  }

  /** What create_plan and transition_state answer. */
  lemma PlanningIsAnswered(r: RunRow, op: Op)
    ensures op.OpTransition? ==>
              Apply(r, op).reply == if CanTransition(r.state, op.to) then Done else Refused(InvalidTransition)
    ensures op.OpCreatePlan? ==>
              Apply(r, op).reply == if !IsActive(r.state) then Refused(TerminalRun)
                                    else if HandsBack(r, op) then Done
                                    else if r.state == Idle then Refused(InvalidTransition)
                                    else if op.planner.PlannerRaised? then Refused(PlanningFailed)
                                    else Done
  {
    StoresIs(r, op);
  }

  /** What start_plan_execution answers to others than strangers: the gate decides on a waiting run only. */
  lemma StartIsAnswered(r: RunRow, op: Op)
    requires op.OpStart? && !ByStranger(r, op)
    ensures r.state == Executing ==> Apply(r, op).reply == Done
    ensures r.state !in {AwaitingApproval, Executing} ==> Apply(r, op).reply == Refused(WrongState)
    ensures r.state == AwaitingApproval ==> IsFirstFailure(Apply(r, op).reply, r, Ask(op.user, "", None, op.current))
  {
    GateAnswers(r, Ask(op.user, "", None, op.current));
  }

  /** What execute_next_task answers behind the gate. */
  ghost predicate TasksAnswer(ts: seq<Task>, outcome: ExecOutcome, reply: Reply) {
    if forall j :: 0 <= j < |Settled(ts)| ==> Settled(ts)[j].status != TaskStatus.Ready then reply == Done
    else if forall k: nat :: !IsHandedOver(ts, k) then reply == Refused(TaskNotReady)
    else reply == if outcome.ExecutorRaised? then Refused(ExecutionRaised) else Done
  }

  lemma TasksAnswerIs(ts: seq<Task>, outcome: ExecOutcome)
    ensures TasksAnswer(ts, outcome, if NextReady(Settled(ts)).None? then Done
                                     else if !CanStart(ts) then Refused(TaskNotReady)
                                     else if outcome.ExecutorRaised? then Refused(ExecutionRaised) else Done)
  {
    CanStartMeans(ts);
    NextReadyMeans(Settled(ts));
  }

  /** What execute_next_task answers. */
  lemma ExecuteIsAnswered(r: RunRow, op: Op)
    requires op.OpExecute?
    ensures r.state != Executing ==> Apply(r, op).reply == Refused(WrongState)
    ensures r.state == Executing && !IsFirstFailure(Done, r, NoOne(op.current)) ==>
              Apply(r, op).reply != Done && IsFirstFailure(Apply(r, op).reply, r, NoOne(op.current))
    ensures r.state == Executing && IsFirstFailure(Done, r, NoOne(op.current)) ==>
              r.plan.Some? && TasksAnswer(r.plan.value.tasks, op.outcome, Apply(r, op).reply)
  {
    var a := NoOne(op.current);
    GateOpens(r, a);
    if r.state == Executing {
      if Gate(r, a.user, a.planId, a.version, a.current) == Done {
        TasksAnswerIs(r.plan.value.tasks, op.outcome);
      } else {
        GateAnswers(r, a);
      }
    }
  }

  // ---------------------------------------------------- whose calls count

  /** The first `n` calls without those that strangers made. */
  function OwnCalls(r: RunRow, ops: seq<Op>, n: nat): seq<Op>
    requires n <= |ops|
  {
    if n == 0 then []
    else OwnCalls(r, ops, n - 1) + if ByStranger(r, ops[n - 1]) then [] else [ops[n - 1]]
  }

  lemma {:induction false} OwnerAlways(r: RunRow, ops: seq<Op>, n: nat)
    requires n <= |ops|
    ensures After(r, ops, n).userId == r.userId
  {
    if n > 0 {
      OwnerAlways(r, ops, n - 1);
      OwnerStays(After(r, ops, n - 1), ops[n - 1]);
    }
  }

  lemma {:induction false} AfterMore(r: RunRow, ops: seq<Op>, more: seq<Op>, n: nat)
    requires n <= |ops|
    ensures After(r, ops + more, n) == After(r, ops, n)
  {
    if n > 0 {
      AfterMore(r, ops, more, n - 1);
    }
  }

  /** Strangers cannot do anything to a run: leaving their calls out leads to the same run. */
  lemma {:induction false} StrangersDoNothing(r: RunRow, ops: seq<Op>, n: nat)
    requires n <= |ops|
    ensures After(r, ops, n) == After(r, OwnCalls(r, ops, n), |OwnCalls(r, ops, n)|)
  {
    if n > 0 {
      var op, own := ops[n - 1], OwnCalls(r, ops, n - 1);
      StrangersDoNothing(r, ops, n - 1);
      OwnerAlways(r, ops, n - 1);
      if ByStranger(r, op) {
        StrangersAreRefused(After(r, ops, n - 1), op);
        assert OwnCalls(r, ops, n) == own;
      } else {
        AfterMore(r, own, [op], |own|);
        assert OwnCalls(r, ops, n) == own + [op];
      }
    }
  }

  // ------------------------------------------------- how requests add up

  /** The pending requests. */
  function PendingOnes(approvals: seq<Approval>): set<nat> {
    set k: nat | k < |approvals| && approvals[k].status == ApprovalStatus.Pending
  }

  predicate Settles(r: RunRow, op: Op) {
    && (op.OpApproveAction? || op.OpRejectAction?)
    && op.k < |r.approvals| && r.approvals[op.k].status == ApprovalStatus.Pending
  }

  /** A request adds itself to what is pending, and an accepted answer takes out the one it names. */
  lemma PendingMoves(r: RunRow, op: Op)
    requires IsActionOp(op)
    ensures PendingOnes(Apply(r, op).row.approvals) ==
            if op.OpRequest? then PendingOnes(r.approvals) + {|r.approvals|}
            else if Settles(r, op) then PendingOnes(r.approvals) - {op.k}
            else PendingOnes(r.approvals)
  {
    var after := Apply(r, op).row.approvals;
    RecordsMoveExactly(r, op);
    forall k: nat | k < |after|
      ensures after[k] == if k < |r.approvals| then r.approvals[k].(status := NewStatus(r, op, k), resolvedAt := NewTime(r, op, k))
                          else NewRecords(r, op)[k - |r.approvals|]
    {
      assert k >= |r.approvals| ==> after[|r.approvals|..][k - |r.approvals|] == after[k];
    }
  }

  /** Of the first `n` calls: how many asked, and how many answered something that was pending. */
  ghost function Asked(ops: seq<Op>, n: nat): nat
    requires n <= |ops|
  {
    if n == 0 then 0 else Asked(ops, n - 1) + if ops[n - 1].OpRequest? then 1 else 0
  }

  ghost function Answered(r: RunRow, ops: seq<Op>, n: nat): nat
    requires n <= |ops|
  {
    if n == 0 then 0 else Answered(r, ops, n - 1) + if Settles(After(r, ops, n - 1), ops[n - 1]) then 1 else 0
  }

  /** Nothing that was asked is lost: what is pending and what was answered is what was pending and what was asked. */
  lemma {:induction false} RequestsAddUp(r: RunRow, ops: seq<Op>, n: nat)
    requires n <= |ops| && forall i :: 0 <= i < n ==> IsActionOp(ops[i])
    ensures |PendingOnes(After(r, ops, n).approvals)| + Answered(r, ops, n) == |PendingOnes(r.approvals)| + Asked(ops, n)
  {
    if n > 0 {
      RequestsAddUp(r, ops, n - 1);
      assert IsActionOp(ops[n - 1]);
      PendingCounts(After(r, ops, n - 1), ops[n - 1]);
    }
  }

  lemma PendingCounts(r: RunRow, op: Op)
    requires IsActionOp(op)
    ensures |PendingOnes(Apply(r, op).row.approvals)| + (if Settles(r, op) then 1 else 0) ==
            |PendingOnes(r.approvals)| + (if op.OpRequest? then 1 else 0)
  {
    PendingMoves(r, op);
    if op.OpRequest? {
      assert |r.approvals| !in PendingOnes(r.approvals);
    }
  }

  /** So an executing run with nothing pending is paused later exactly if more was asked than answered. */
  lemma PausedIffMoreAsked(r: RunRow, ops: seq<Op>, n: nat)
    requires r.state == Executing && forall k :: 0 <= k < |r.approvals| ==> r.approvals[k].status != ApprovalStatus.Pending
    requires n <= |ops| && forall i :: 0 <= i < n ==> IsActionOp(ops[i])
    ensures Answered(r, ops, n) <= Asked(ops, n)
    ensures After(r, ops, n).state == if Asked(ops, n) > Answered(r, ops, n) then AwaitingApproval else Executing
  {
    PauseAndResume(r, ops, n);
    RequestsAddUp(r, ops, n);
    assert PendingOnes(r.approvals) == {};
    var a := After(r, ops, n).approvals;
    if HasPending(a) {
      var k :| 0 <= k < |a| && a[k].status == ApprovalStatus.Pending;
      assert k in PendingOnes(a);
    } else {
      assert PendingOnes(a) == {};
    }
  }
}
