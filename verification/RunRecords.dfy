/**
 * The approval records of a run over whole histories: what the gate's "newest
 * approved" record says, and exactly which plan approvals filed by a caller
 * through request_action_approval can spoil it.
 */
module RunRecords {
  import opened Basics
  import opened AgentStateMachine
  import opened TaskDag
  import opened AgentRunModel
  import opened RunInvariants
  import opened RunHistory

  // --------------------------------------------------- what filing can spoil

  /** A second live plan approval. */
  predicate FilesSecond(r: RunRow, op: Op) {
    FilesPlanApproval(op) && HasLive(r.approvals)
  }

  /** A plan approval about something else than the valid stored plan. */
  predicate FilesUnbound(r: RunRow, op: Op) {
    FilesPlanApproval(op) && r.plan.Some? && r.plan.value.valid && op.op != Binding(r.plan.value)
  }

  /** Every live plan approval is about the stored plan, if that is valid. */
  predicate Bound(r: RunRow) {
    r.plan.Some? && r.plan.value.valid ==> LiveAreBound(r.approvals, r.plan.value)
  }

  lemma CreateOneLive(r: RunRow, force: bool, p: Planner)
    requires AtMostOneLive(r.approvals)
    ensures AtMostOneLive(CreatePlan(r, force, p).row.approvals)
  {
    var was := ExpireLive(r.approvals);
    assert forall k :: 0 <= k < |was| ==> !IsLivePlanApproval(was[k]);
  }

  lemma ApproveOneLive(r: RunRow, user: Option<int>, now: int)
    requires AtMostOneLive(r.approvals)
    ensures AtMostOneLive(ApprovePlan(r, user, now).row.approvals)
  {
    if r.plan.Some? {
      var after := ApproveRecord(r.approvals, r.plan.value.(status := PlanStatus.Approved), now);
      var k := FirstPendingPlanApproval(r.approvals);
      if k.Some? {
        assert IsLivePlanApproval(r.approvals[k.value]);
        assert forall j :: 0 <= j < |after| && IsLivePlanApproval(after[j]) ==> IsLivePlanApproval(r.approvals[j]);
      }
    }
  }

  lemma FewerLive(a: seq<Approval>, b: seq<Approval>)
    requires AtMostOneLive(a) && |b| == |a|
    requires forall k :: 0 <= k < |a| && IsLivePlanApproval(b[k]) ==> IsLivePlanApproval(a[k])
    ensures AtMostOneLive(b)
  {}

  /** The only operation that makes two plan approvals live is filing one while another is. */
  lemma OneLiveStep(r: RunRow, op: Op)
    requires AtMostOneLive(r.approvals)
    ensures AtMostOneLive(Apply(r, op).row.approvals) <==> !FilesSecond(r, op)
  {
    if IsQuiet(op) {
      QuietKeeps(r, op);
    } else {
      match op
      case OpCreatePlan(force, planner) => CreateOneLive(r, force, planner);
      case OpApprovePlan(user, now) => ApproveOneLive(r, user, now);
      case OpRequest(kind, o) => RequestOneLive(r, kind, o);
      case OpRejectPlan(user, now) => FewerLive(r.approvals, RejectPlan(r, user, now).row.approvals);
      case OpApproveAction(k, now) => ResolveOneLive(r, k, ApprovalStatus.Approved, now);
      case OpRejectAction(k, now) => ResolveOneLive(r, k, ApprovalStatus.Rejected, now);
    }
  }

  lemma ResolveOneLive(r: RunRow, k: nat, verdict: ApprovalStatus, now: int)
    requires AtMostOneLive(r.approvals)
    ensures AtMostOneLive(ResolveAction(r, k, verdict, now).row.approvals)
  {
    FewerLive(r.approvals, ResolveAction(r, k, verdict, now).row.approvals);
  }

  lemma CreateBound(r: RunRow, force: bool, p: Planner)
    requires Bound(r)
    ensures Bound(CreatePlan(r, force, p).row)
  {
    var was := ExpireLive(r.approvals);
    assert forall k :: 0 <= k < |was| ==> !IsLivePlanApproval(was[k]);
  }

  lemma ApproveBound(r: RunRow, user: Option<int>, now: int)
    requires Bound(r)
    ensures Bound(ApprovePlan(r, user, now).row)
  {
    if r.plan.Some? {
      var q := r.plan.value.(status := PlanStatus.Approved);
      assert Binding(q) == Binding(r.plan.value);
      var k := FirstPendingPlanApproval(r.approvals);
      if k.Some? {
        assert IsLivePlanApproval(r.approvals[k.value]);
      }
    }
  }

  lemma RequestBound(r: RunRow, kind: ActionType, op: Operation)
    requires Bound(r)
    ensures Bound(RequestActionApproval(r, kind, op)) <==> !FilesUnbound(r, OpRequest(kind, op))
  {
    var after := RequestActionApproval(r, kind, op).approvals;
    var n := |r.approvals|;
    assert after == r.approvals + [Approval(kind, ApprovalStatus.Pending, op, 0)];
    assert after[n].op == op && (kind == PlanApproval <==> IsLivePlanApproval(after[n]));
    assert forall k :: 0 <= k < n ==> after[k] == r.approvals[k];
  }

  /** The plan a record could be bound to stays, and no record comes alive. */
  lemma StillBound(r: RunRow, after: RunRow)
    requires Bound(r) && |after.approvals| == |r.approvals|
    requires after.plan.Some? ==>
               r.plan.Some? && Binding(after.plan.value) == Binding(r.plan.value) && after.plan.value.valid == r.plan.value.valid
    requires forall k :: 0 <= k < |r.approvals| && IsLivePlanApproval(after.approvals[k]) ==>
               IsLivePlanApproval(r.approvals[k]) && after.approvals[k].op == r.approvals[k].op
    ensures Bound(after)
  {}

  lemma RejectBound(r: RunRow, user: Option<int>, now: int)
    requires Bound(r)
    ensures Bound(RejectPlan(r, user, now).row)
  {
    StillBound(r, RejectPlan(r, user, now).row);
  }

  lemma ResolveBound(r: RunRow, k: nat, verdict: ApprovalStatus, now: int)
    requires Bound(r)
    ensures Bound(ResolveAction(r, k, verdict, now).row)
  {
    if k < |r.approvals| && r.approvals[k].status == ApprovalStatus.Pending {
      StillBound(r, ResolveAction(r, k, verdict, now).row);
    }
  }

  lemma BoundStep(r: RunRow, op: Op)
    requires Bound(r)
    ensures Bound(Apply(r, op).row) <==> !FilesUnbound(r, op)
  {
    if IsQuiet(op) {
      QuietKeeps(r, op);
      StillBound(r, Apply(r, op).row);
    } else {
      match op
      case OpCreatePlan(force, planner) => CreateBound(r, force, planner);
      case OpApprovePlan(user, now) => ApproveBound(r, user, now);
      case OpRequest(kind, o) => RequestBound(r, kind, o);
      case OpRejectPlan(user, now) => RejectBound(r, user, now);
      case OpApproveAction(k, now) => ResolveBound(r, k, ApprovalStatus.Approved, now);
      case OpRejectAction(k, now) => ResolveBound(r, k, ApprovalStatus.Rejected, now);
    }
  }

  /** What holds at first, and is broken exactly by bad steps, has held throughout exactly if no step was bad. */
  lemma {:induction false} HoldsUnlessBroken(holds: nat -> bool, bad: nat -> bool, n: nat)
    requires holds(0) && forall i: nat :: i < n && holds(i) ==> (holds(i + 1) <==> !bad(i))
    ensures (forall m: nat :: m <= n ==> holds(m)) <==> (forall i: nat :: i < n ==> !bad(i))
  {
    if n > 0 {
      HoldsUnlessBroken(holds, bad, n - 1);
      if forall i: nat :: i < n ==> !bad(i) {
        assert holds(n - 1);
        assert holds(n - 1 + 1);
      } else if forall m: nat :: m <= n ==> holds(m) {
        assert holds(n - 1) && holds(n - 1 + 1);
      }
    }
  }

  lemma RecordsStep(rows: seq<RunRow>, ops: seq<Op>, i: nat)
    requires IsHistory(rows, ops) && i < |ops| && RecordsOk(rows[i])
    ensures RecordsOk(rows[i + 1]) <==> !FilesHarm(rows[i], ops[i])
  {
    CoreAlways(rows, ops, i);
    ApplyKeepsRecords(rows[i], ops[i]);
  }

  lemma StartsInOrder(rows: seq<RunRow>, ops: seq<Op>)
    requires IsHistory(rows, ops)
    ensures RecordsOk(rows[0]) && AtMostOneLive(rows[0].approvals) && Bound(rows[0])
  {
    var u :| rows[0] == CreatedRun(u);
    CreatedRunIsOk(u);
  }

  /** All record invariants hold up to the n-th state exactly as long as nothing harmful has been filed. */
  lemma RecordsAlways(rows: seq<RunRow>, ops: seq<Op>, n: nat)
    requires IsHistory(rows, ops) && n <= |ops|
    ensures (forall m :: 0 <= m <= n ==> RecordsOk(rows[m])) <==> (forall i :: 0 <= i < n ==> !FilesHarm(rows[i], ops[i]))
  {
    var holds := (m: nat) => m < |rows| && RecordsOk(rows[m]);
    var bad := (i: nat) => i < |ops| && FilesHarm(rows[i], ops[i]);
    StartsInOrder(rows, ops);
    forall i: nat | i < n && holds(i) ensures holds(i + 1) <==> !bad(i) {
      RecordsStep(rows, ops, i);
    }
    HoldsUnlessBroken(holds, bad, n);
    assert forall m :: 0 <= m <= n ==> (holds(m) <==> RecordsOk(rows[m]));
    assert forall i :: 0 <= i < n ==> (bad(i) <==> FilesHarm(rows[i], ops[i]));
  }

  /** At most one plan approval has been live throughout exactly if none was filed beside a live one. */
  lemma OneLiveAlways(rows: seq<RunRow>, ops: seq<Op>, n: nat)
    requires IsHistory(rows, ops) && n <= |ops|
    ensures (forall m :: 0 <= m <= n ==> AtMostOneLive(rows[m].approvals))
            <==> (forall i :: 0 <= i < n ==> !FilesSecond(rows[i], ops[i]))
  {
    var holds := (m: nat) => m < |rows| && AtMostOneLive(rows[m].approvals);
    var bad := (i: nat) => i < |ops| && FilesSecond(rows[i], ops[i]);
    StartsInOrder(rows, ops);
    forall i: nat | i < n && holds(i) ensures holds(i + 1) <==> !bad(i) {
      OneLiveStep(rows[i], ops[i]);
    }
    HoldsUnlessBroken(holds, bad, n);
    assert forall m :: 0 <= m <= n ==> (holds(m) <==> AtMostOneLive(rows[m].approvals));
    assert forall i :: 0 <= i < n ==> (bad(i) <==> FilesSecond(rows[i], ops[i]));
  }

  /** The live ones were about the valid stored plan throughout exactly if none about anything else was filed. */
  lemma BoundAlways(rows: seq<RunRow>, ops: seq<Op>, n: nat)
    requires IsHistory(rows, ops) && n <= |ops|
    ensures (forall m :: 0 <= m <= n ==> Bound(rows[m])) <==> (forall i :: 0 <= i < n ==> !FilesUnbound(rows[i], ops[i]))
  {
    var holds := (m: nat) => m < |rows| && Bound(rows[m]);
    var bad := (i: nat) => i < |ops| && FilesUnbound(rows[i], ops[i]);
    StartsInOrder(rows, ops);
    forall i: nat | i < n && holds(i) ensures holds(i + 1) <==> !bad(i) {
      BoundStep(rows[i], ops[i]);
    }
    HoldsUnlessBroken(holds, bad, n);
    assert forall m :: 0 <= m <= n ==> (holds(m) <==> Bound(rows[m]));
    assert forall i :: 0 <= i < n ==> (bad(i) <==> FilesUnbound(rows[i], ops[i]));
  }

  /** With one live plan approval the gate's "newest approved" is the only approved one. */
  lemma NewestIsOnly(approvals: seq<Approval>, k: nat)
    requires AtMostOneLive(approvals) && k < |approvals| && IsApprovedPlanApproval(approvals[k])
    ensures NewestApproved(approvals) == Some(k)
    ensures forall j :: 0 <= j < |approvals| && j != k ==> !IsLivePlanApproval(approvals[j])
  {
    var m := NewestApproved(approvals);
    assert m.Some?;
    assert IsLivePlanApproval(approvals[m.value]) && IsLivePlanApproval(approvals[k]);
  }

  // -------------------------------------------- what the record read says

  /** It names a plan, its version and a revision, or a version that no plan has. */
  predicate Telling(op: Operation) {
    (op.planId != "" && op.version.Some? && op.revision != "") || (op.version.Some? && op.version.value < 1)
  }

  predicate RecordsTell(r: RunRow) {
    forall k :: 0 <= k < |r.approvals| && r.approvals[k].kind == PlanApproval ==> Telling(r.approvals[k].op)
  }

  /** An operation appends at most one record: the requested one, or one about the plan it leaves stored. */
  lemma NewRecords(r: RunRow, op: Op, k: nat)
    requires |r.approvals| <= k < |Apply(r, op).row.approvals|
    ensures var after := Apply(r, op).row;
            after.approvals[k].kind == PlanApproval ==>
              (FilesPlanApproval(op) && after.approvals[k].op == op.op)
              || (after.plan.Some? && after.approvals[k].op == Binding(after.plan.value))
  {
    if IsQuiet(op) {
      QuietKeeps(r, op);
    } else if op.OpCreatePlan? {
      CreateRecords(r, op.force, op.planner, k);
    } else if op.OpApprovePlan? {
      ApproveRecords(r, op.user, op.now, k);
    }
  }

  lemma CreateRecords(r: RunRow, force: bool, p: Planner, k: nat)
    requires |r.approvals| <= k < |CreatePlan(r, force, p).row.approvals|
    ensures var after := CreatePlan(r, force, p).row; after.plan.Some? && after.approvals[k].op == Binding(after.plan.value)
  {}

  lemma ApproveRecords(r: RunRow, user: Option<int>, now: int, k: nat)
    requires |r.approvals| <= k < |ApprovePlan(r, user, now).row.approvals|
    ensures var after := ApprovePlan(r, user, now).row; after.plan.Some? && after.approvals[k].op == Binding(after.plan.value)
  {}

  lemma TellingStep(r: RunRow, op: Op)
    requires Core(r) && OpOk(r, op) && RecordsTell(r) && (FilesPlanApproval(op) ==> Telling(op.op))
    ensures RecordsTell(Apply(r, op).row)
  {
    var after := Apply(r, op).row;
    ApplyKeepsCore(r, op);
    forall k | 0 <= k < |after.approvals| && after.approvals[k].kind == PlanApproval ensures Telling(after.approvals[k].op) {
      if k < |r.approvals| {
        RecordsMove(r, op, k);
      } else {
        NewRecords(r, op, k);
      }
    }
  }

  lemma {:induction false} TellingAlways(rows: seq<RunRow>, ops: seq<Op>, n: nat)
    requires IsHistory(rows, ops) && n <= |ops|
    requires forall i :: 0 <= i < n && FilesPlanApproval(ops[i]) ==> Telling(ops[i].op)
    ensures RecordsTell(rows[n])
  {
    if n == 0 {
      var u :| rows[0] == CreatedRun(u);
    } else {
      TellingAlways(rows, ops, n - 1);
      CoreAlways(rows, ops, n - 1);
      TellingStep(rows[n - 1], ops[n - 1]);
    }
  }

  /** The record the gate reads names the stored plan, its version and the current revision. */
  predicate RecordNames(r: RunRow, current: string) {
    && r.plan.Some? && NewestApproved(r.approvals).Some?
    && var op := r.approvals[NewestApproved(r.approvals).value].op;
       && op.planId == r.plan.value.id && op.version == Some(r.plan.value.version)
       && (current != "" ==> op.revision == current)
  }

  lemma GateReads(r: RunRow, current: string)
    requires Core(r) && RecordsTell(r) && ReachesExecutor(r, current)
    ensures RecordNames(r, current)
  {
    GateMeans(r, None, "", None, current);
    assert Telling(r.approvals[NewestApproved(r.approvals).value].op);
  }

  /**
   * Whenever a task reaches the executor, the record the gate has read names exactly the stored plan, its
   * version and the current revision, if every plan approval a caller filed was a telling one. It is the
   * only live one, and the one made for the plan, under the exact conditions for those.
   */
  lemma ExecutionIsOnRecord(rows: seq<RunRow>, ops: seq<Op>, n: nat, current: string)
    requires IsHistory(rows, ops) && n <= |ops| && ReachesExecutor(rows[n], current)
    requires forall i :: 0 <= i < n && FilesPlanApproval(ops[i]) ==> Telling(ops[i].op)
    ensures RecordNames(rows[n], current)
    ensures (forall i :: 0 <= i < n ==> !FilesSecond(rows[i], ops[i])) ==>
              forall k :: 0 <= k < |rows[n].approvals| && IsLivePlanApproval(rows[n].approvals[k]) ==>
                NewestApproved(rows[n].approvals) == Some(k)
    ensures (forall i :: 0 <= i < n ==> !FilesUnbound(rows[i], ops[i])) ==>
              rows[n].approvals[NewestApproved(rows[n].approvals).value].op == Binding(rows[n].plan.value)
  {
    CoreAlways(rows, ops, n);
    TellingAlways(rows, ops, n);
    GateReads(rows[n], current);
    RecordsOfExecution(rows[n], current);
    if forall i :: 0 <= i < n ==> !FilesSecond(rows[i], ops[i]) {
      OneLiveAlways(rows, ops, n);
      assert AtMostOneLive(rows[n].approvals);
    }
    if forall i :: 0 <= i < n ==> !FilesUnbound(rows[i], ops[i]) {
      BoundAlways(rows, ops, n);
      assert Bound(rows[n]);
    }
  }

  lemma RecordsOfExecution(r: RunRow, current: string)
    requires ReachesExecutor(r, current)
    ensures r.plan.Some? && NewestApproved(r.approvals).Some?
    ensures AtMostOneLive(r.approvals) ==>
              forall k :: 0 <= k < |r.approvals| && IsLivePlanApproval(r.approvals[k]) ==> NewestApproved(r.approvals) == Some(k)
    ensures Bound(r) ==> r.approvals[NewestApproved(r.approvals).value].op == Binding(r.plan.value)
  {
    GateMeans(r, None, "", None, current);
    var k := NewestApproved(r.approvals).value;
    assert IsLivePlanApproval(r.approvals[k]);
    if AtMostOneLive(r.approvals) {
      NewestIsOnly(r.approvals, k);
    }
  }

  // --------------------------------------------- the other filed operations

  /** Callers file only plan approvals about `op`. */
  predicate FiledAre(ops: seq<Op>, op: Operation) {
    forall i :: 0 <= i < |ops| && FilesPlanApproval(ops[i]) ==> ops[i].op == op
  }

  /** However often it is filed, the record behind an execution is right. */
  ghost predicate NeverMisleads(op: Operation) {
    forall rows: seq<RunRow>, ops: seq<Op>, current: string ::
      IsHistory(rows, ops) && FiledAre(ops, op) && current != "" && ReachesExecutor(rows[|ops|], current) ==>
        RecordNames(rows[|ops|], current)
  }

  /** The id of the k-th draft in the run below; 0 is the plan that is approved. */
  function DraftId(op: Operation, k: nat): string {
    if k == 0 && op.planId != "" then op.planId else seq(|op.planId| + 1 + k, i => 'p')
  }

  lemma DraftIdsDiffer(op: Operation, j: nat, k: nat)
    requires j != k
    ensures DraftId(op, j) != DraftId(op, k) && DraftId(op, j) != ""
  {
    assert |DraftId(op, j)| != |DraftId(op, k)|;
  }

  function Draft(op: Operation, k: nat): Planner {
    Planned(DraftId(op, k), false, "sha", [])
  }

  /** A run that has seen `n` plans fail validation. */
  predicate HasDrafts(r: RunRow, op: Operation, n: nat) {
    && r.approvals == [] && r.userId == None
    && r.state == (if n == 0 then Understanding else Planning)
    && (if n == 0 then r.plan.None? else r.plan.Some? && r.plan.value.version == n)
  }

  predicate AreDrafts(ops: seq<Op>, op: Operation, n: nat) {
    |ops| == n && forall i :: 0 <= i < n ==> ops[i] == OpCreatePlan(false, Draft(op, i + 1))
  }

  lemma DraftFails(r: RunRow, op: Operation, n: nat)
    requires HasDrafts(r, op, n)
    ensures HasDrafts(CreatePlan(r, false, Draft(op, n + 1)).row, op, n + 1)
  {}

  lemma {:induction false} DraftHistory(op: Operation, n: nat) returns (rows: seq<RunRow>, ops: seq<Op>)
    ensures IsHistory(rows, ops) && AreDrafts(ops, op, n) && HasDrafts(rows[n], op, n)
  {
    if n == 0 {
      rows, ops := [CreatedRun(None)], [];
    } else {
      rows, ops := DraftHistory(op, n - 1);
      rows, ops := OneMoreDraft(rows, ops, op, n - 1);
    }
  }

  lemma OneMoreDraft(before: seq<RunRow>, done: seq<Op>, op: Operation, n: nat) returns (rows: seq<RunRow>, ops: seq<Op>)
    requires IsHistory(before, done) && AreDrafts(done, op, n) && HasDrafts(before[n], op, n)
    ensures IsHistory(rows, ops) && AreDrafts(ops, op, n + 1) && HasDrafts(rows[n + 1], op, n + 1)
  {
    var create := OpCreatePlan(false, Draft(op, n + 1));
    var next := CreatePlan(before[n], false, Draft(op, n + 1)).row;
    DraftFails(before[n], op, n);
    forall i | 0 <= i < n ensures done[i].planner.id != DraftId(op, n + 1) {
      DraftIdsDiffer(op, i + 1, n + 1);
    }
    DraftIdsDiffer(op, n + 1, 0);
    rows, ops := HistoryGoesOn(before, done, create, next);
  }

  /** The revision such a record is read with. */
  function RevisionOf(op: Operation): string {
    if op.revision != "" then op.revision else "sha"
  }

  function VersionOf(op: Operation): nat {
    if op.version.Some? && op.version.value >= 1 then op.version.value else 1
  }

  function Target(op: Operation): Planner {
    Planned(DraftId(op, 0), true, "sha", DemoPlanner().tasks)
  }

  /** A waiting run with one valid plan and its pending record. */
  predicate IsWaiting(r: RunRow, p: Plan) {
    && r.state == AwaitingApproval && r.userId == None && r.plan == Some(p)
    && p.valid && p.status == PlanStatus.Ready && p.tasks == DemoPlanner().tasks
    && r.approvals == [Approval(PlanApproval, ApprovalStatus.Pending, Binding(p), 0)]
  }

  lemma WaitingHistory(op: Operation) returns (rows: seq<RunRow>, ops: seq<Op>, p: Plan)
    ensures IsHistory(rows, ops) && FiledAre(ops, op) && IsWaiting(rows[|ops|], p)
    ensures p.id == DraftId(op, 0) && p.version == VersionOf(op) && p.revision == "sha"
  {
    var n := VersionOf(op) - 1;
    rows, ops := DraftHistory(op, n);
    var last := rows[n];
    p := NewPlan(last, Target(op));
    forall i | 0 <= i < n ensures ops[i].planner.id != DraftId(op, 0) {
      DraftIdsDiffer(op, i + 1, 0);
    }
    DraftIdsDiffer(op, 0, 1);
    var next := CreatePlan(last, false, Target(op)).row;
    assert ExpireLive(last.approvals) == [];
    rows, ops := HistoryGoesOn(rows, ops, OpCreatePlan(false, Target(op)), next);
  }

  /** After approve_plan, and after the caller's record has been filed and approved. */
  function Approved1(r: RunRow): RunRow {
    ApprovePlan(r, None, 1).row
  }

  function Filed(r: RunRow, op: Operation): RunRow {
    RequestActionApproval(Approved1(r), PlanApproval, op)
  }

  function Misled(r: RunRow, op: Operation): RunRow {
    ResolveAction(Filed(r, op), 1, ApprovalStatus.Approved, 2).row
  }

  lemma FiledIs(r: RunRow, p: Plan, op: Operation)
    requires IsWaiting(r, p)
    ensures var f := Filed(r, op);
            && f.state == AwaitingApproval && f.plan == Some(p.(status := PlanStatus.Approved)) && f.userId == None
            && f.approvals == [Approval(PlanApproval, ApprovalStatus.Approved, Binding(p), 1),
                               Approval(PlanApproval, ApprovalStatus.Pending, op, 0)]
  {
    assert FirstPendingPlanApproval(r.approvals) == Some(0);
  }

  /** The second record is resolved later than the first. */
  lemma SecondIsNewest(a: seq<Approval>)
    requires |a| == 2 && IsApprovedPlanApproval(a[1]) && a[0].resolvedAt < a[1].resolvedAt
    ensures NewestApproved(a) == Some(1)
  {}

  lemma MisledIs(r: RunRow, p: Plan, op: Operation)
    requires IsWaiting(r, p)
    ensures var m := Misled(r, op);
            && m.state == Executing && m.plan == Some(p.(status := PlanStatus.Approved)) && m.userId == None
            && NewestApproved(m.approvals) == Some(1) && m.approvals[1].op == op
  {
    FiledIs(r, p, op);
    LastPendingResumes(Filed(r, op), 1, 2);
    SecondIsNewest(Misled(r, op).approvals);
  }

  /** The gate compares what the record says, and passes what it leaves out. */
  lemma MisledReachesExecutor(r: RunRow, p: Plan, op: Operation)
    requires IsWaiting(r, p) && p.revision == "sha"
    requires (op.planId == "" || op.planId == p.id) && (op.version.None? || op.version.value == p.version)
    ensures ReachesExecutor(Misled(r, op), RevisionOf(op))
  {
    MisledIs(r, p, op);
    OneFreshTaskStarts();
    assert RecordGate(Misled(r, op).approvals, p.(status := PlanStatus.Approved), "", None, RevisionOf(op)) == Done;
  }

  /** Any other operation can mislead: a run in which the record read leaves something out, and a task starts. */
  lemma FiledRecordMisleads(op: Operation) returns (rows: seq<RunRow>, ops: seq<Op>)
    requires !Telling(op)
    ensures IsHistory(rows, ops) && FiledAre(ops, op)
    ensures ReachesExecutor(rows[|ops|], RevisionOf(op)) && !RecordNames(rows[|ops|], RevisionOf(op))
    ensures rows[|ops|].approvals[NewestApproved(rows[|ops|].approvals).value].op == op
  {
    var before, done, p := WaitingHistory(op);
    var r := before[|done|];
    rows, ops := MisledHistory(before, done, op);
    MisledIs(r, p, op);
    MisledReachesExecutor(r, p, op);
  }

  lemma MisledHistory(before: seq<RunRow>, done: seq<Op>, op: Operation) returns (rows: seq<RunRow>, ops: seq<Op>)
    requires IsHistory(before, done) && FiledAre(done, op)
    ensures IsHistory(rows, ops) && FiledAre(ops, op) && rows[|ops|] == Misled(before[|done|], op)
  {
    var r := before[|done|];
    rows, ops := HistoryGoesOnWith(before, done, OpApprovePlan(None, 1), Approved1(r));
    rows, ops := HistoryGoesOnWith(rows, ops, OpRequest(PlanApproval, op), Filed(r, op));
    rows, ops := HistoryGoesOnWith(rows, ops, OpApproveAction(1, 2), Misled(r, op));
    assert ops == done + [OpApprovePlan(None, 1), OpRequest(PlanApproval, op), OpApproveAction(1, 2)];
  }

  /** Exactly the telling operations can be filed without ever making the record wrong. */
  lemma NeverMisleadsIff(op: Operation)
    ensures NeverMisleads(op) <==> Telling(op)
  {
    if Telling(op) {
      forall rows: seq<RunRow>, ops: seq<Op>, current: string |
        IsHistory(rows, ops) && FiledAre(ops, op) && current != "" && ReachesExecutor(rows[|ops|], current)
        ensures RecordNames(rows[|ops|], current)
      {
        ExecutionIsOnRecord(rows, ops, |ops|, current);
      }
    } else {
      var rows, ops := FiledRecordMisleads(op);
      assert RevisionOf(op) != "";
    }
  }

  // ------------------------------------------------- create, approve, start

  /** create_plan, approve_plan and start_plan_execution, one after the other. */
  ghost function CreateApproveStart(r: RunRow, force: bool, p: Planner, user: Option<int>, now: int, current: string): seq<Outcome> {
    var o1 := CreatePlan(r, force, p);
    var o2 := ApprovePlan(o1.row, user, now);
    var o3 := StartExecution(o2.row, user, current);
    [o1, o2, o3]
  }

  predicate AllPass(o: seq<Outcome>)
    requires |o| == 3
  {
    && o[0].reply == Done && o[1].reply == Done && o[2].reply == Done
    && o[1].row.state == AwaitingApproval && o[2].row.state == Executing
  }

  predicate HasApproved(approvals: seq<Approval>) {
    exists k :: 0 <= k < |approvals| && IsApprovedPlanApproval(approvals[k])
  }

  /** What approve_plan needs to leave an approved record: the plan is still to be approved, or has one. */
  predicate CanBeApproved(r: RunRow) {
    HasLive(r.approvals) && (PlanApproved(r) ==> HasApproved(r.approvals))
  }

  /** The records that approve_plan leaves on a waiting run. */
  function RecordsAfterApproval(r: RunRow, now: int): seq<Approval>
    requires r.plan.Some?
  {
    if PlanApproved(r) then r.approvals else ApproveRecord(r.approvals, r.plan.value, now)
  }

  /** An unknown current revision ("") is not compared. */
  predicate UpToDate(revision: string, current: string) {
    current == "" || current == revision
  }

  /** The newest approved record names nothing but this plan and the current revision; what it leaves out, the plan has. */
  predicate Opens(approvals: seq<Approval>, p: Plan, current: string) {
    && NewestApproved(approvals).Some?
    && var op := approvals[NewestApproved(approvals).value].op;
       && (op.planId == "" || op.planId == p.id) && (op.version == None || op.version == Some(p.version))
       && UpToDate(if op.revision != "" then op.revision else p.revision, current)
  }

  /** A waiting run with a valid plan that is approved or can be. */
  predicate IsApprovable(r: RunRow) {
    && r.state == AwaitingApproval && r.plan.Some? && r.plan.value.valid && r.plan.value.revision != ""
    && r.plan.value.status in {PlanStatus.Ready, PlanStatus.Approved}
  }

  lemma ApproveLands(r: RunRow, user: Option<int>, now: int)
    requires IsApprovable(r) && !Foreign(r, user)
    ensures var o := ApprovePlan(r, user, now);
            && o.reply == Done && o.row.state == AwaitingApproval && o.row.userId == r.userId
            && PlanApproved(o.row) && Binding(o.row.plan.value) == Binding(r.plan.value) && o.row.plan.value.valid
            && o.row.approvals == RecordsAfterApproval(r, now)
  {}

  lemma StartLands(r: RunRow, user: Option<int>, current: string)
    requires r.state == AwaitingApproval && !Foreign(r, user)
    requires PlanApproved(r) && r.plan.value.valid && r.plan.value.revision != ""
    ensures var o := StartExecution(r, user, current);
            o.reply == Done && o.row.state == Executing <==> Opens(r.approvals, r.plan.value, current)
  {
    RecordOpens(r.approvals, r.plan.value, current);
  }

  lemma RecordOpens(approvals: seq<Approval>, p: Plan, current: string)
    requires p.revision != ""
    ensures RecordGate(approvals, p, "", None, current) == Done <==> Opens(approvals, p, current)
  {
    if NewestApproved(approvals).Some? {
      var op := approvals[NewestApproved(approvals).value].op;
      var expected := if op.revision != "" then op.revision else p.revision;
      assert Differ(expected, current) <==> !UpToDate(expected, current);
    }
  }

  lemma OpensAlike(approvals: seq<Approval>, p: Plan, q: Plan, current: string)
    requires Binding(p) == Binding(q)
    ensures Opens(approvals, p, current) == Opens(approvals, q, current)
  {}

  /** Approve and start on a waiting run: the newest record decides. */
  lemma ApproveStartLands(r: RunRow, user: Option<int>, now: int, current: string)
    requires IsApprovable(r) && !Foreign(r, user)
    ensures var o2 := ApprovePlan(r, user, now); var o3 := StartExecution(o2.row, user, current);
            && o2.reply == Done && o2.row.state == AwaitingApproval
            && (o3.reply == Done && o3.row.state == Executing
                <==> Opens(RecordsAfterApproval(r, now), r.plan.value, current))
  {
    ApproveLands(r, user, now);
    var after := ApprovePlan(r, user, now).row;
    StartLands(after, user, current);
    OpensAlike(after.approvals, after.plan.value, r.plan.value, current);
  }

  /** Where the live records are about the plan, only its revision and an approved record matter. */
  lemma BoundOpens(r: RunRow, now: int, current: string)
    requires Bound(r) && r.plan.Some? && r.plan.value.valid && r.plan.value.revision != "" && HasLive(r.approvals)
    ensures Opens(RecordsAfterApproval(r, now), r.plan.value, current)
            <==> CanBeApproved(r) && UpToDate(r.plan.value.revision, current)
  {
    var p, a := r.plan.value, RecordsAfterApproval(r, now);
    var live :| 0 <= live < |r.approvals| && IsLivePlanApproval(r.approvals[live]);
    if !PlanApproved(r) {
      var k := FirstPendingPlanApproval(r.approvals);
      assert IsApprovedPlanApproval(a[if k.Some? then k.value else live]);
      assert k.Some? ==> IsLivePlanApproval(r.approvals[k.value]);
    }
    var m := NewestApproved(a);
    if m.Some? {
      assert IsLivePlanApproval(r.approvals[m.value]) && a[m.value].op == r.approvals[m.value].op == Binding(p);
    }
  }

  /** create_plan ends in a valid plan that waits: the one it hands back, or a new one. */
  predicate Lands(r: RunRow, force: bool, p: Planner) {
    && r.state in {Understanding, Planning, AwaitingApproval}
    && (Reuses(r, force) || (p.Planned? && p.valid))
  }

  /** From the three planning states create_plan leaves a valid plan that can be approved, unless it reuses one. */
  lemma CreateLands(r: RunRow, force: bool, p: Planner)
    requires Lands(r, force, p)
    ensures var o := CreatePlan(r, force, p);
            && o.reply == Done && o.row.state == AwaitingApproval && o.row.userId == r.userId
            && o.row.plan.Some? && o.row.plan.value.valid && HasLive(o.row.approvals)
            && (Reuses(r, force) ==> o.row == r)
            && (!Reuses(r, force) ==> !PlanApproved(o.row) && Bound(o.row) && o.row.plan.value.revision == p.revision)
  {
    var o := CreatePlan(r, force, p);
    if !Reuses(r, force) {
      var was := ExpireLive(r.approvals);
      assert forall k :: 0 <= k < |was| ==> !IsLivePlanApproval(was[k]);
      assert IsLivePlanApproval(o.row.approvals[|was|]);
    }
  }

  lemma CreateDoesNotLand(r: RunRow, force: bool, p: Planner)
    requires !Lands(r, force, p)
    ensures var o := CreatePlan(r, force, p); o.reply != Done || o.row.state != AwaitingApproval
  {}

  lemma ApproveStays(r: RunRow, user: Option<int>, now: int)
    ensures var o := ApprovePlan(r, user, now); o.row.state == r.state && (Foreign(r, user) ==> o.reply != Done)
  {}

  /**
   * When create, approve, start all pass: the owner calls, create_plan lands, and the repository has not moved
   * since the plan was made. A plan that is handed back is started on the record that is newest by then.
   */
  predicate WillPass(r: RunRow, force: bool, p: Planner, user: Option<int>, now: int, current: string) {
    && !Foreign(r, user) && Lands(r, force, p)
    && if Reuses(r, force) then Opens(RecordsAfterApproval(r, now), r.plan.value, current) else UpToDate(p.revision, current)
  }

  lemma HappyPathStep(r: RunRow, force: bool, p: Planner, user: Option<int>, now: int, current: string)
    requires Core(r) && PlannerOk(r, p)
    ensures AllPass(CreateApproveStart(r, force, p, user, now, current)) <==> WillPass(r, force, p, user, now, current)
  {
    ApproveStays(CreatePlan(r, force, p).row, user, now);
    if !Lands(r, force, p) {
      CreateDoesNotLand(r, force, p);
    } else if Foreign(r, user) {
      CreateLands(r, force, p);
    } else {
      FromPlanning(r, force, p, user, now, current);
    }
  }

  lemma FromPlanning(r: RunRow, force: bool, p: Planner, user: Option<int>, now: int, current: string)
    requires Core(r) && PlannerOk(r, p) && Lands(r, force, p) && !Foreign(r, user)
    ensures AllPass(CreateApproveStart(r, force, p, user, now, current)) <==> WillPass(r, force, p, user, now, current)
  {
    var created := CreatePlan(r, force, p).row;
    CreateLands(r, force, p);
    CreatedIsApprovable(r, force, p);
    ApproveStartLands(created, user, now, current);
    if !Reuses(r, force) {
      BoundOpens(created, now, current);
    }
  }

  lemma CreatedIsApprovable(r: RunRow, force: bool, p: Planner)
    requires Core(r) && PlannerOk(r, p) && Lands(r, force, p)
    ensures IsApprovable(CreatePlan(r, force, p).row)
  {
    CreateLands(r, force, p);
    CreatePlanKeeps(r, force, p);
  }

  /**
   * From every reachable state create, approve, start ends EXECUTING through the gate exactly when the owner
   * calls, the state is one that can plan, there is a valid plan and the repository has not moved since it
   * was made. Where create_plan hands back the plan it has, that is up to the record that is newest after
   * the approval, whoever filed it and whatever it is about.
   */
  lemma HappyPath(rows: seq<RunRow>, ops: seq<Op>, n: nat, force: bool, p: Planner, user: Option<int>, now: int, current: string)
    requires IsHistory(rows, ops) && n <= |ops| && PlannerOk(rows[n], p)
    ensures AllPass(CreateApproveStart(rows[n], force, p, user, now, current))
            <==> WillPass(rows[n], force, p, user, now, current)
  {
    CoreAlways(rows, ops, n);
    HappyPathStep(rows[n], force, p, user, now, current);
  }

  /** Without harmful filings a plan that is handed back is no exception: only its revision matters. */
  lemma ReusedCanBeApproved(rows: seq<RunRow>, ops: seq<Op>, n: nat, force: bool, now: int, current: string)
    requires IsHistory(rows, ops) && n <= |ops| && Reuses(rows[n], force)
    requires forall i :: 0 <= i < n ==> !FilesHarm(rows[i], ops[i])
    ensures Bound(rows[n]) && CanBeApproved(rows[n])
    ensures Opens(RecordsAfterApproval(rows[n], now), rows[n].plan.value, current)
            <==> UpToDate(rows[n].plan.value.revision, current)
  {
    CoreAlways(rows, ops, n);
    RecordsAlways(rows, ops, n);
    assert RecordsOk(rows[n]);
    OrderedCanBeApproved(rows[n]);
    BoundOpens(rows[n], now, current);
  }

  lemma OrderedCanBeApproved(r: RunRow)
    requires RecordsOk(r) && r.plan.Some? && r.plan.value.valid && HasLive(r.approvals)
    ensures Bound(r) && CanBeApproved(r)
  {
    var live :| 0 <= live < |r.approvals| && IsLivePlanApproval(r.approvals[live]);
    if PlanApproved(r) {
      assert !IsPendingPlanApproval(r.approvals[live]);
      assert IsApprovedPlanApproval(r.approvals[live]);
    }
  }
}
