# A model of GitOnboard's deterministic cores, with proofs

GitOnboard mixes calls to language models, a database and a web front end with
a few deterministic parts that other things rely on. This project models five
of them in Dafny and proves what they guarantee, over all inputs and whole
runs.

* **Agent runs and the approval gate** (`AgentStateMachine`, `TaskDag`,
  `AgentRunModel`, `AgentRuns`, `RunInvariants`, `RunOperations`, `RunHistory`,
  `RunRecords`, `TaskProgress`). A run has a state, a stored plan, approval records, a plan
  history and an audit log; about a dozen operations may be called on it in any
  order. `AgentRunModel` gives
  each operation as a function on a row; the class in `AgentRuns` does the same
  step by step and is proved equal to it; `RunInvariants` shows what every
  operation keeps, and `RunOperations`, field by field, exactly which call changes
  what; `RunHistory` and `RunRecords` draw the conclusions for whole
  histories, and `TaskProgress` follows the execution loop.
* **Bounded file reading and tree printing** (`Truncation`, `ReadFile`,
  `DirectoryTree`, `TreeInPlace`, `TreeDrawing`).
* **The repository graph** (`QueryLayer`, `Relationships`, `FeatureTracing`).
* **Publish and subscribe** (`TaskManager`, `QueueOrder`): the class as one
  thread sees it, and a transition system that interleaves notifying threads,
  subscribers and the event loop.
* **Investigation and benchmark metrics** (`Evidences`, `Findings`, `ClaimText`,
  `Investigation`, `Verifications`, `Evaluation`).

`Basics` holds the shared vocabulary. `dafny verify dfyconfig.toml` checks the
whole project.

## Reading the model

The database is an object in memory whose writes succeed; each run operation is
one step. Clocks, identifiers, the repository revision, the answers of the
planner, the executor and the verifier, and the outcome of case folding and path
normalization are parameters, so every result holds for all of them. The planner
returns fresh non-empty ids, a non-empty revision and pending tasks. The token
factor 3.5 is the exact fraction 7/2; confidences, ratios and durations are
reals. Python iterates over sets in no fixed order; so do the methods here.
Evidence texts are the program's own wordings around a subject, as symbols,
because only whether they are blank matters; the claims a verifier parses are
real strings.

Where code and documentation disagree, the model follows the code:

* `create_plan` says it plans from IDLE; the transition table has no edge from
  IDLE to PLANNING, so the call is refused (`RunHistory.CreatePlanFromIdle`).
* Cancellation writes the state without a log record, and recovery logs
  FAILED→FAILED because the state is overwritten first; these are the only runs
  whose log is no walk to the state (`RunHistory.LogIsWalkUnlessCutOff`).
* EXECUTING does not mean that the plan is approved; the three ways around the
  gate are `RunHistory.UnapprovedExecutionIff`. No task reaches the executor then.
* `request_action_approval` accepts PLAN_APPROVAL, so a record that leaves out the
  plan, its version or its revision can become the one the gate reads
  (`RunRecords.NeverMisleadsIff`). The stored plan must still have gone through
  `approve_plan` (`RunHistory.ExecutionIsAuthorized`).
* The eight characters allowed for a line number are too few from line 100000 on
  (`Truncation.NumberedWithinBudget`, `Truncation.BudgetExceeded`).
* With context lines, `is_truncated` and `next_start_line` may disagree
  (`ReadFile.FlagsAgreeWithoutContext`); two negative line numbers select by
  Python's negative slices (`ReadFile.ReadKinds`).
* Overlapping notifies may leave a subscriber with an older status than
  `get_all` reports (`QueueOrder.QueueMayEndStale`); when one notice can overtake
  another is `QueueOrder.CanOvertakeIff`.
* The documentation gives INDIRECT evidence the range 0.6–0.9; the check accepts
  0.5–0.9. Confirmation is said to require evidence; `advance_status` does not
  ask for it (`Findings.TableAsksForNoEvidence`).
* The verifier parses the subject of a claim out of its text: a quote in a name
  cuts it short, and a route claim without quotes is looked up as "Route"
  (`Investigation.AlwaysConfirmedIff`, `Investigation.ScoutedRouteVerdict`).
* Cross-repository leakage is called a hard check, but is tested on a rate
  rounded to four digits (`Evaluation.LeakageReported`).
* The last fallback for an empty flow in tracing and the second confirming pass of
  the verifier can never succeed (`FeatureTracing.BuildFlow`,
  `Investigation.ExistenceVerdict`).

## Model

| member | source | states |
|---|---|---|
| `RunHistory.ExecutionIsAuthorized` | backend/agent/task_ops.py:116-171 | in every sequence of operations on a created run, whenever a task reaches the executor the run is EXECUTING, the stored plan is APPROVED and valid, every dependency of the started task names a task that has PASSED, and `approve_plan` was called on exactly this plan id and version after it was created with no plan created since; nothing is assumed about who files approval requests |
| `RunRecords.ExecutionIsOnRecord` | backend/agent/plan_ops.py:319-364 | whenever a task reaches the executor in a history whose caller-filed PLAN_APPROVALs were all telling, the newest APPROVED record names exactly the stored plan id, version and current revision; it is the only live one if none was filed beside a live one, and the record made for the plan if none was filed about anything else |
| `RunRecords.NeverMisleadsIff` | backend/agent/plan_ops.py:339-364 | an operation can be filed as PLAN_APPROVAL without ever making that record wrong if and only if it names a plan, a version and a revision, or a version below 1, which no plan has |
| `RunRecords.FiledRecordMisleads` | backend/agent/engineering_agent.py:781-819 | for every other operation there is a run in which callers file only it, the record the gate reads is that record, leaves something out, and a task still reaches the executor |
| `RunHistory.ExecutingWithoutApproval` | backend/agent/engineering_agent.py:821-841 | EXECUTING does not imply approval: a concrete run in which `approve_action` on the plan record resumes a run whose plan is still READY_FOR_APPROVAL, and where no task can reach the executor |
| `RunHistory.UnapprovedExecutionIff` | backend/agent/engineering_agent.py:821-864 | in every history a run is EXECUTING without an APPROVED plan exactly if, since it last came to EXECUTING, the gate was bypassed: by an explicit transition, by resolving the only pending request of a waiting run, or by storing a new plan while EXECUTING |
| `RunHistory.BypassStep` | backend/agent/plan_ops.py:113-116 | one operation leads into that situation exactly by one of the three bypasses, and the situation lasts exactly as long as EXECUTING does |
| `RunHistory.StoredBy` | backend/agent/plan_ops.py:134-150 | in runs whose plans `create_plan` writes, the stored plan was written by one identifiable `create_plan`, and none has written one since |
| `RunHistory.ApprovedBy` | backend/agent/plan_ops.py:366-426 | a stored plan that is APPROVED was turned from READY_FOR_APPROVAL by an `approve_plan` after it was written |
| `RunHistory.StepProvenance` | backend/agent/plan_ops.py:136-180 | only a storing `create_plan` changes id, version, validity or revision of the stored plan; only `approve_plan` can make it APPROVED |
| `RunHistory.CoreAlways` | backend/agent/plan_ops.py:81-283 | the core invariant (status, log, plan, history) holds at every reachable state, and every plan id in the run came from an earlier operation |
| `RunRecords.RecordsAlways` | backend/agent/plan_ops.py:210-255 | all approval-record invariants hold throughout a history exactly if no harmful PLAN_APPROVAL was filed in it: beside a live one, without a plan, about another operation than the valid stored plan, or for one already APPROVED |
| `RunRecords.OneLiveAlways` | backend/agent/plan_ops.py:210-255 | at most one PLAN_APPROVAL record is PENDING or APPROVED throughout a history exactly if none was filed while another was live |
| `RunRecords.OneLiveStep` | backend/agent/engineering_agent.py:781-819 | over all operations, only filing a second one breaks that |
| `RunRecords.BoundAlways` | backend/agent/plan_ops.py:233-255 | the live records are about the id, version and revision of the valid stored plan throughout a history exactly if none about anything else was filed |
| `RunRecords.NewestIsOnly` | backend/agent/plan_ops.py:319-328 | with one live record the gate's "newest approved" query has one possible answer |
| `RunInvariants.RequestOneLive` | backend/agent/engineering_agent.py:781-819 | filing one more request keeps "at most one live plan approval" exactly when it is not a second live plan approval |
| `RunRecords.HappyPath` | backend/agent/plan_ops.py:319-364 | from every reachable state, forced or not, create, approve, start end in EXECUTING through the gate if and only if the caller is no foreign user, the run is in UNDERSTANDING, PLANNING or AWAITING_APPROVAL, there is a valid plan, and the current revision is unknown or the plan's; where `create_plan` hands back the plan it has, exactly if the record that is newest after the approval names nothing but this plan, its version and the current revision |
| `RunRecords.ReusedCanBeApproved` | backend/agent/plan_ops.py:101-111 | if nothing harmful was filed, a plan handed back is no exception: it can be approved, and only its revision matters |
| `RunHistory.CreatePlanFromIdle` | backend/agent/plan_ops.py:113-116 | `create_plan` is refused as an invalid transition exactly in IDLE, although its comment lists IDLE among the states it plans from |
| `RunHistory.LogAlways` | backend/agent/engineering_agent.py:211-268 | at every reachable state the log has length at most 3·(entries into AWAITING_APPROVAL)+5, and one more after a recovery; a COMPLETED run that never executed has the log IDLE→UNDERSTANDING→COMPLETED; the legacy status is the image of the state, and `completed_at` is set iff the state is terminal |
| `RunHistory.LogIsWalkUnlessCutOff` | backend/agent/task_ops.py:332-345 | the log is a walk of the table from IDLE to the current state exactly if neither a cancellation nor a recovery has ended the run; it stops at an active state exactly after a cancellation, and ends in FAILED→FAILED exactly after a recovery |
| `RunHistory.LogStep` | backend/agent/engineering_agent.py:211-268 | on an active run, every operation but those two leaves a complete walk |
| `AgentStateMachine.WalkLength` | backend/agent/state_machine.py:43-90 | any walk in the table from IDLE has length at most 3·(entries into AWAITING_APPROVAL)+5 |
| `AgentStateMachine.WalkLengthTight` | backend/agent/state_machine.py:43-90 | that bound is reached for every positive number of pauses |
| `AgentStateMachine.CompletedWithoutExecuting` | backend/agent/state_machine.py:43-90 | a walk that ends COMPLETED without EXECUTING is IDLE→UNDERSTANDING→COMPLETED |
| `AgentStateMachine.TerminalIffNoWayOut` | backend/agent/state_machine.py:85-117 | the separately listed terminal states are exactly those without an outgoing transition, and every other state can fail or be cancelled |
| `AgentStateMachine.EnteredFrom` | backend/agent/state_machine.py:43-90 | the table read the other way round: from which states each state is entered |
| `AgentStateMachine.WalkMeans` | backend/agent/state_machine.py:43-90 | a log is a walk exactly if it starts in IDLE, every record goes on from the last one, and every record is in that table |
| `AgentStateMachine.LegacyMeans` | backend/models/implementation.py:93-116 | which states each legacy status stands for; REPAIRING is never reported |
| `RunHistory.VersionsAreCounted` | backend/agent/plan_ops.py:134-150 | the k-th plan that `create_plan` writes has version k: versions of its plans are 1, 2, 3, … without reuse |
| `RunHistory.HistoryAlways` | backend/agent/plan_ops.py:182-206 | in runs whose plans `create_plan` writes, history versions increase strictly, every row but the newest is SUPERSEDED by the plan of the next row, and the newest row agrees with a valid stored plan |
| `RunHistory.SupersededForEver` | backend/agent/plan_ops.py:416-426 | a superseded history row is never changed again, whatever is approved or rejected later |
| `RunInvariants.MarkedKeeps` | backend/agent/plan_ops.py:512-523 | resolving the stored plan changes the newest history row if the plan is valid and no row otherwise |
| `RunInvariants.CreatePlanKeeps` | backend/agent/plan_ops.py:81-283 | `create_plan` keeps the core invariant on every path, the failing ones included |
| `RunInvariants.ApplyKeepsCore` | backend/agent/engineering_agent.py:211-268 | every operation keeps the core invariant, forged approval requests included |
| `RunInvariants.ApplyKeepsRecords` | backend/agent/plan_ops.py:430-456 | an operation keeps the approval records in order exactly unless it files a harmful PLAN_APPROVAL |
| `RunHistory.RejectedNeverExecutes` | backend/agent/plan_ops.py:473-554 | `reject_plan` on a waiting run rejects the stored plan and its newest history row, leaves no plan approval pending, cancels the run, and no task of it ever reaches the executor afterwards |
| `RunHistory.FinishedForEver` | backend/agent/state_machine.py:85-90 | in any sequence of operations a terminal run keeps state, log and plan, and never reaches the executor |
| `RunHistory.FinishedBy` | backend/agent/task_ops.py:136-256 | at every reachable state a task of the stored plan is PASSED only if, since that plan was stored, it was handed to the executor through the gate, succeeded and was verified; FAILED only if it was handed over and was not |
| `RunHistory.RunsOnce` | backend/agent/task_ops.py:136-172 | while the plan stays, no task that has been reported on is handed to the executor again |
| `RunHistory.TasksMove` | backend/agent/task_ops.py:136-256 | over all operations, only a report on the task itself makes it PASSED or FAILED, and final statuses stay |
| `TaskDag.AfterExecutionMoves` | backend/agent/task_ops.py:171-191 | writing back a report gives the started task its verdict and at most settles other PENDING tasks |
| `TaskProgress.AllPassIff` | backend/agent/tasks/orchestrator.py:46-143 | for distinct task ids and no reports yet, verified reports carry every task to PASSED in exactly as many steps as there are tasks if and only if no dependency is missing and there is no cycle |
| `TaskProgress.LoopFinishes` | backend/routers/agent.py:152-166 | for an authorised EXECUTING run with such a plan, each of the first |tasks| calls of `execute_next_task` hands a task to the executor behind the gate, then every task is PASSED, and the next call finds none and changes nothing |
| `TaskProgress.LoopIsShort` | backend/routers/agent.py:152-166 | in every history, while a plan stays, the executor reports at most once per task of it that was not final, whatever it reports and whatever other operations come between |
| `TaskProgress.PassOrder` | backend/agent/tasks/orchestrator.py:46-143 | the order in which tasks pass puts every task after its dependencies |
| `RunHistory.HowItEnded` | backend/agent/state_machine.py:43-90 | every finished run was ended by one identifiable step, of a kind its final state tells: COMPLETED only by a successful `complete_run` or an explicit transition, FAILED also by recovery, CANCELLED only by cancellation, rejection of the waiting plan or an explicit transition |
| `RunHistory.ResolvedForEver` | backend/agent/safety/approval.py:157-248 | through every later state an approval record keeps its subject; a rejected or expired one stays so, and an approved one can only expire, if it is a plan approval |
| `RunHistory.RecordsMove` | backend/agent/safety/approval.py:157-248 | in one operation a record moves only from PENDING to APPROVED or REJECTED, by the call that names it or by the plan decision, or from live to EXPIRED by a newly stored valid plan |
| `RunHistory.RecoveryEndsRun` | backend/agent/task_ops.py:296-353 | recovery makes every run terminal, changes exactly the runs that were not, leaves no RUNNING or VERIFYING task, changes no other task, and a second recovery changes nothing |
| `RunHistory.PauseAndResume` | backend/agent/engineering_agent.py:781-864 | from EXECUTING with nothing pending, after any sequence of requests, approvals and rejections the run is AWAITING_APPROVAL iff something is pending and EXECUTING otherwise |
| `RunOperations.StrangersAreRefused` | backend/agent/plan_ops.py:484-485 | over all operations: the reply is NotOwner if and only if the operation is approve, reject or start, both the caller's user and the owner are set and the two differ; the run is then unchanged |
| `RunOperations.GateRefusesStrangers` | backend/agent/plan_ops.py:299-300 | the gate on its own answers NotOwner exactly when both users are set and differ, whatever else is wrong |
| `RunOperations.StrangersDoNothing` | backend/agent/plan_ops.py:484-485 | in every sequence of operations, leaving out the calls of strangers leads to the same run |
| `RunOperations.GateAnswers` | backend/agent/plan_ops.py:285-365 | the gate's answer is the first of eleven failures, in the order of the source and each stated on the fields of the run, the newest approved record and the arguments; it opens exactly if there is none |
| `RunOperations.StateMoves` | backend/agent/engineering_agent.py:211-268 | for every operation and every state other than the present one: the operation leads there if and only if the stated condition on the run and the arguments holds; so `complete_run` moves exactly executing and verifying runs, a request pauses exactly executing runs, and an answer resumes exactly when it settles the only pending record |
| `RunOperations.PlanMoves` | backend/agent/plan_ops.py:136-180 | the plan is replaced exactly by a storing `create_plan`, with the next version and the planner's tasks; otherwise only `approve_plan` and `reject_plan` change its status, and no call anything else of it but its tasks |
| `RunOperations.TasksMoveExactly` | backend/agent/safety/cancellation.py:105-178 | for every task and every operation that stores no plan: a start settles the tasks, a report writes back its verdict, a cancellation of an active run blocks exactly the PENDING and READY tasks, a recovery exactly the RUNNING and VERIFYING ones, and nothing else touches a task |
| `RunOperations.RecordsMoveExactly` | backend/agent/engineering_agent.py:781-864 | for every operation: each approval record keeps its subject and gets exactly the stated status and time, and exactly the stated records are added: one PENDING record of the requested kind and operation for a request of any kind, one about the plan for a stored valid plan, an APPROVED one for an approval that finds no plan record |
| `RunOperations.HistoryMovesExactly` | backend/agent/plan_ops.py:182-206 | for every operation and every history row: what becomes of it, and which row is added |
| `RunOperations.LogMoves` | backend/agent/engineering_agent.py:229-243 | for every operation: which transitions are appended to the log |
| `RunOperations.RefusedChangesNothing` | backend/agent/plan_ops.py:113-134 | a refused call leaves the run as it was, except that a planner that raised leaves it in PLANNING |
| `RunOperations.ActionsAreAnswered` | backend/agent/safety/approval.py:157-248 | requests, completion and recovery are always accepted; an answer exactly if its record exists and is PENDING; a cancellation exactly on runs that are neither COMPLETED nor FAILED |
| `RunOperations.PlanAnswers` | backend/agent/plan_ops.py:366-554 | which approvals and rejections by others than strangers are accepted, and what the others are told |
| `RunOperations.PlanningIsAnswered` | backend/agent/plan_ops.py:96-134 | which explicit transitions and which calls of `create_plan` are accepted, and what the others are told |
| `RunOperations.StartIsAnswered` | backend/agent/task_ops.py:46-92 | `start_plan_execution` by others than strangers: done on an executing run, refused outside AWAITING_APPROVAL, and otherwise the gate's first failure |
| `RunOperations.ExecuteIsAnswered` | backend/agent/task_ops.py:116-191 | `execute_next_task`: refused outside EXECUTING, then the gate's first failure, then done exactly if no task is READY, and refused for a task that cannot be started |
| `RunOperations.ReachesExecutorMeans` | backend/agent/task_ops.py:116-171 | a task is handed to the executor exactly if the run is EXECUTING, nothing fails at the gate, and the first task with the id of the first READY one is READY |
| `RunOperations.ApprovesIs` | backend/agent/plan_ops.py:366-426 | the approvals that the safety results speak of are those of a waiting run whose plan is READY_FOR_APPROVAL, not by a stranger |
| `RunOperations.PendingMoves` | backend/agent/engineering_agent.py:781-864 | a request adds its own record to the pending ones, and an accepted answer takes out exactly the one it names |
| `RunOperations.RequestsAddUp` | backend/agent/engineering_agent.py:781-864 | over every sequence of requests and answers, from any run: records pending at the end plus accepted answers equal records pending at the start plus requests |
| `RunOperations.PausedIffMoreAsked` | backend/agent/engineering_agent.py:781-864 | an executing run with nothing pending is AWAITING_APPROVAL later exactly if more was requested than answered, and EXECUTING otherwise |
| `AgentRunModel.NewestApproved` | backend/agent/plan_ops.py:319-325 | the gate's lookup returns an APPROVED plan approval that is newest by resolution and then by request, and nothing only if there is none |
| `AgentRuns.AgentRun.constructor` | backend/agent/engineering_agent.py:131-199 | `create_run` leaves a run in UNDERSTANDING with the one log record |
| `AgentRuns.AgentRun.TransitionState` | backend/agent/engineering_agent.py:211-268 | the method writes exactly the new row of the specification, or nothing when the table refuses |
| `AgentRuns.AgentRun.RequestActionApproval` | backend/agent/engineering_agent.py:781-819 | pauses an executing run and appends one pending record |
| `AgentRuns.AgentRun.ResolveAction` | backend/agent/engineering_agent.py:821-864 | resolves one pending record and resumes the run when no record of any kind is pending |
| `AgentRuns.AgentRun.CreatePlan` | backend/agent/plan_ops.py:81-283 | the step-by-step method (expiry loop, superseding loop, transitions, failure paths) has exactly the effect of the specification the invariants are proved about |
| `AgentRuns.AgentRun.RevisePlan` | backend/agent/plan_ops.py:53-79 | is a forced `create_plan` |
| `AgentRuns.AgentRun.ExpirePlanApprovals` | backend/agent/plan_ops.py:210-219 | the loop expires the live plan approvals and no other record |
| `AgentRuns.AgentRun.SupersedeOlderPlans` | backend/agent/plan_ops.py:196-206 | the loop supersedes exactly the not yet superseded rows of earlier versions |
| `AgentRuns.AgentRun.AssertExecutionAuthorized` | backend/agent/plan_ops.py:285-364 | reports the first failing check of the gate, in the order of the source |
| `AgentRuns.AgentRun.ApprovePlan` | backend/agent/plan_ops.py:366-471 | has exactly the effect of the specification: plan, history row, the oldest pending record, or a new record when there is none |
| `AgentRuns.AgentRun.RejectPlan` | backend/agent/plan_ops.py:473-554 | has exactly the effect of the specification, including rejection without a plan |
| `AgentRuns.AgentRun.StartPlanExecution` | backend/agent/task_ops.py:35-92 | evaluates dependencies and enters EXECUTING only through the gate |
| `AgentRuns.AgentRun.ExecuteNextTask` | backend/agent/task_ops.py:116-256 | hands over a task only behind the gate and writes back the task list the reports call for; an exception writes nothing |
| `AgentRuns.AgentRun.CompleteRun` | backend/agent/task_ops.py:258-294 | moves an executing or verifying run to COMPLETED or FAILED and ignores others |
| `AgentRuns.AgentRun.CancelRun` | backend/agent/safety/cancellation.py:105-177 | cancels an active run and blocks its waiting tasks without a log record |
| `AgentRuns.RecoverInFlightRuns` | backend/agent/task_ops.py:296-353 | over a table of run objects: every active run is recovered in place, finished ones keep every field, and the ids returned are exactly the formerly active runs |
| `TaskDag.EvaluateDependencies` | backend/agent/tasks/orchestrator.py:46-143 | the repeated passes end, and leave exactly the statuses of an order-free definition: BLOCKED iff a chain of pending tasks leads to a dead or missing dependency, READY iff all dependencies PASSED |
| `TaskDag.ScanDependencies` | backend/agent/tasks/orchestrator.py:90-116 | the inner loop with its early exit answers the two quantified questions |
| `TaskDag.SelectNextTask` | backend/agent/tasks/orchestrator.py:152-163 | selects the first READY task by (step number, task id), ties by list order, after evaluation |
| `TaskDag.SettledMeans` | backend/agent/tasks/orchestrator.py:46-143 | after evaluation a PENDING task is BLOCKED exactly if a chain of pending tasks leads from it to a dependency that is missing, FAILED, BLOCKED or SKIPPED, and READY exactly if all its dependencies have PASSED; every other task is as before |
| `TaskDag.NextReadyMeans` | backend/agent/tasks/orchestrator.py:152-163 | the selected task is READY, and every other READY task has a later step number, or the same and a later id, or the same and a later place; nothing is selected only if no task is READY |
| `TaskDag.StartedMeans` | backend/agent/task_ops.py:136-156 | the task handed to the executor is the first one that carries the id of the selected task |
| `TaskDag.ReportIsSettled` | backend/agent/task_ops.py:171-191 | a report gives the started task PASSED exactly if it succeeded and was verified, FAILED otherwise, and evaluation follows |
| `TaskDag.SettledIdempotent` | backend/agent/tasks/orchestrator.py:57-60 | evaluating an evaluated list changes nothing |
| `TaskDag.ExecutionRespects` | backend/agent/task_ops.py:136-172 | the task that reaches the executor has all its dependencies PASSED, and writing back its result keeps "no task has started before its dependencies passed" |
| `TaskDag.SettledRespects` | backend/agent/tasks/orchestrator.py:46-143 | dependency evaluation keeps "no task has started before its dependencies passed" |
| `Truncation.FindSemanticBoundaries` | backend/repository_tools/truncation.py:14-73 | both boundary finders return, strictly sorted from 0 to the line count, exactly the boundaries of the kind of file |
| `Truncation.TruncateSemantically` | backend/repository_tools/truncation.py:76-144 | returns the prefix of length k for the one k that is the largest fitting semantic boundary, or else the longest fitting prefix of whole lines, at least one; the early `break` loses nothing |
| `Truncation.CutIsUnique` | backend/repository_tools/truncation.py:100-144 | the documented cut is unique |
| `Truncation.CutMeaning` | backend/repository_tools/truncation.py:100-144 | a cut of a non-empty text keeps at least one line, is over budget only if it is a single line, and keeps everything that fits as a whole |
| `Truncation.CutIsLargest` | backend/repository_tools/truncation.py:76-145 | the cut is the last boundary within the budget if there is one; otherwise one more line would exceed the budget |
| `Truncation.TextBoundaryMeans` | backend/repository_tools/truncation.py:46-73 | text may be cut exactly before a heading, between a blank line and one that is not, and after a line that ends a sentence |
| `Truncation.CodeBoundaryMeans` | backend/repository_tools/truncation.py:14-43 | code may be cut exactly before a definition, and where a line without indentation follows a blank one |
| `Truncation.MaxCharsMeans` | backend/repository_tools/truncation.py:76-110 | the budget is three and a half characters, rounded down, for each token left after the reserved ones, and 35 if fewer than ten are left |
| `Truncation.ReservingCosts` | backend/repository_tools/truncation.py:76-110 | each pair of reserved tokens takes seven characters from the budget, until the least budget is reached |
| `Truncation.CostIncreases` | backend/repository_tools/truncation.py:100-125 | the cost of a prefix strictly increases with its length |
| `Truncation.LineNumberFits` | backend/repository_tools/truncation.py:100-107 | the eight characters allowed for a line number are enough exactly up to line 99999 |
| `Truncation.NumberedWithinBudget` | backend/repository_tools/truncation.py:76-107 | the numbered text of a cut fits the budget exactly if its cost plus the surplus of its line numbers does, and its own cost exactly if there is no surplus; so it always fits up to line 99999 unless it is a single line |
| `Truncation.SurplusCounts` | backend/repository_tools/truncation.py:104-107 | below line one million the surplus is the number of lines from 100000 on, less the number of lines below 10000 |
| `Truncation.BudgetExceeded` | backend/repository_tools/truncation.py:104-107 | beyond line 99999 the promise fails: a cut within twelve tokens whose numbered text exceeds them |
| `ReadFile.Read` | backend/repository_tools/tools.py:251-354 | the window logic with its reassigned variables returns exactly the fields of the specification |
| `ReadFile.WindowWithoutContext` | backend/repository_tools/tools.py:300-354 | without context lines `is_truncated` holds iff `next_start_line` is set, the text is exactly the lines reported, and `remaining_lines` counts the rest |
| `ReadFile.FlagsAgreeWithoutContext` | backend/repository_tools/tools.py:318-354 | over all files, ranges and budgets the two fields agree if and only if no context lines are asked for |
| `ReadFile.PagingReadsAll` | backend/repository_tools/tools.py:265-354 | following `next_start_line` under any token budgets takes at most one page per requested line, without gap or overlap, and when it stops the `raw_text` pieces concatenate to exactly the requested lines |
| `ReadFile.PagingStarts` | backend/repository_tools/tools.py:265-316 | a call without context lines starts such a paging exactly when it is granted a non-empty range |
| `ReadFile.ReadKinds` | backend/repository_tools/tools.py:251-297 | from the arguments alone: exactly when a call overflows the context, exactly when its range is refused, and exactly when a window is of an empty range (an empty file, or two negative line numbers) |
| `ReadFile.RequestedLines` | backend/repository_tools/tools.py:265-290 | what a granted call asks for, from its arguments: without an end line from max(1, start) to the last line of the file, with one the two arguments in order, clipped to the file |
| `ReadFile.WindowMeans` | backend/repository_tools/tools.py:280-354 | the window of a non-empty request, from the arguments, the file and the budget: it starts at max(1, first − context), reaches min(total, target + context), where target is the end of the request within the safe limit, and holds what truncation keeps of those lines; flags, next line and remainder follow |
| `ReadFile.WholeFileIsRead` | backend/repository_tools/tools.py:251-354 | `read_file(path)` and then every `next_start_line`, under any budgets, comes to an end, and the `raw_text` pieces concatenate to the whole file from the start line on, for every file within the safe limit |
| `DirectoryTree.BuildHolds` | backend/repository_tools/tools.py:527-549 | for well-formed paths none of which continues another, the files of the trie are exactly the paths of at most depth+1 components, and it has no empty directory |
| `DirectoryTree.BuildHoldsIffPrefixFree` | backend/repository_tools/tools.py:527-549 | that holds if and only if no path within the depth is a proper prefix of another |
| `DirectoryTree.BuildShows` | backend/repository_tools/tools.py:527-549 | for any list of well-formed paths, the files of the trie are exactly the paths of at most depth+1 components that no later such path continues or is continued by, and it has no empty directory |
| `DirectoryTree.BuildIsOrderFree` | backend/repository_tools/tools.py:546-549 | the trie does not depend on the order or the repetition of the insertions |
| `DirectoryTree.TreeIsItsFiles` | backend/repository_tools/tools.py:527-544 | tries without empty directories are equal when their files are |
| `DirectoryTree.LinesDetermineItems` | backend/repository_tools/tools.py:552-566 | under one prefix the printed lines from an item on determine all items from there on, subtrees included |
| `DirectoryTree.FormatTreeIsInjective` | backend/repository_tools/tools.py:552-566 | two trees without empty directories print to the same lines if and only if they are equal |
| `DirectoryTree.PrintedTreeDeterminesPaths` | backend/repository_tools/tools.py:527-568 | for any two lists of well-formed paths, the printed lines are equal if and only if the same paths are shown: those that no later path within the depth continues or is continued by |
| `TreeDrawing.PrintedLines` | backend/repository_tools/tools.py:545-568 | line by line, from the shown paths alone: there is one line for each shown path and each directory on the way to one, a directory directly before what is below it and names in ascending order; a line is a bar or a gap for each ancestor that is not, or is, the last entry of its directory, then "└── " for a last entry and "├── " for any other, the name, and "/" for a directory |
| `TreeInPlace.Dictionary.Add` | backend/repository_tools/tools.py:527-544 | inserting a path into the dictionaries in place gives exactly the value of the insertion on values, keeps them a tree without sharing, and touches nothing else |
| `TreeInPlace.Dictionary.FormatTree` | backend/repository_tools/tools.py:552-566 | the loop and recursion over the dictionary objects print exactly the lines of their value |
| `TreeInPlace.PrintTree` | backend/repository_tools/tools.py:546-568 | insertion loop and printing together give the lines that `PrintedTreeDeterminesPaths` is about |
| `TreeInPlace.SortedNames` | backend/repository_tools/tools.py:555 | the names of a directory one by one, least first |
| `DirectoryTree.NamesSorted` | backend/repository_tools/tools.py:555 | which are in strictly ascending order |
| `DirectoryTree.Items` | backend/repository_tools/tools.py:555 | the sorted items of a directory are exactly its entries |
| `DirectoryTree.ItemsSorted` | backend/repository_tools/tools.py:555 | in strictly ascending order of names |
| `QueryLayer.QueryLayer.constructor` | backend/intelligence/query_layer.py:19-45 | after the two passes every index equals, in order, the linear scan it replaces |
| `QueryLayer.QueryLayer.Find` | backend/intelligence/query_layer.py:47-53 | a lookup by name, module or file returns exactly the matching entities in model order |
| `QueryLayer.QueryLayer.Sources` | backend/intelligence/query_layer.py:42-45 | the reverse index returns, in order, what the reverse query scans for |
| `QueryLayer.ForwardBackwardDual` | backend/intelligence/query_layer.py:62-148 | forward and reverse queries are duals with equal multiplicity: the number of such relationships |
| `QueryLayer.QueryLayer.SearchEntities` | backend/intelligence/query_layer.py:220-235 | lists exactly the functions and classes whose name contains the query, each once, with its name and file; functions first, name by name |
| `QueryLayer.KeysUsedOrder` | backend/intelligence/query_layer.py:32-40 | the keys of an index are in the order of their first use |
| `QueryLayer.IndexOkStep` | backend/intelligence/query_layer.py:32-40 | indexing one more entity keeps an index equal to the scan |
| `QueryLayer.SearchIsRight` | backend/intelligence/query_layer.py:220-235 | the two loops over the name indexes enumerate exactly the matching entities, without repetition, in the order of the model |
| `QueryLayer.SearchOrder` | backend/intelligence/query_layer.py:220-235 | the matches of one kind come by the first use of their name in the model, and under one name in model order |
| `QueryLayer.ScanMeans` | backend/intelligence/query_layer.py:47-60 | what a lookup of each kind returns: the entities at exactly the places of the model with that kind and that name, file or module, in order |
| `QueryLayer.ForwardMeans` | backend/intelligence/query_layer.py:62-90 | the targets at exactly the relationships of that kind that start at the entity, in order |
| `QueryLayer.BackwardMeans` | backend/intelligence/query_layer.py:96-150 | the sources at exactly the relationships of that kind that end at the entity, in order |
| `QueryLayer.EntriesOfScan` | backend/intelligence/query_layer.py:47-53 | fetching the ids of a scan one by one gives the scanned entities |
| `Relationships.ResolveImport` | backend/intelligence/relationships.py:25-35 | an import resolves to the file of the longest dotted prefix that is a module; otherwise no prefix is one |
| `Relationships.ResolutionIsUnique` | backend/intelligence/relationships.py:25-35 | there is at most one such file |
| `Relationships.JoinOfComponents` | backend/intelligence/relationships.py:30-32 | the joined leading components of a name are its text up to the end of the last of them |
| `Relationships.LinkImports` | backend/intelligence/relationships.py:21-35 | exactly the resolvable imports add a dependency, to the file they resolve to |
| `Relationships.LinkCalls` | backend/intelligence/relationships.py:43-89 | exactly the calls with a target are linked, from the caller in its scope |
| `Relationships.CallTargetMeaning` | backend/intelligence/relationships.py:78-86 | a callee with one definition is linked from anywhere; with several, only to definitions in the caller's own scope |
| `Relationships.DeduplicateAll` | backend/intelligence/relationships.py:91-97 | deduplication keeps the links and leaves no list with a repetition |
| `Relationships.LinkContains` | backend/intelligence/relationships.py:10-14 | a file contains exactly its classes and functions |
| `Relationships.Build` | backend/intelligence/relationships.py:9-97 | after `build`: a file contains exactly its classes and functions; it depends on exactly the files of the longest modules its imports name; a caller, always the call's name behind the module id of its file and "::", or behind the file id exactly if the module id is empty, is linked to exactly the definitions of the callee's name that are the only one or whose id begins in the same place; without repetitions |
| `Relationships.CallersAreInside` | backend/intelligence/relationships.py:76-89 | every listed caller is the name of a call behind the module id of its file, or behind the file id without one, and every listed callee a definition of the called name |
| `Relationships.OnlyOneIsLinked` | backend/intelligence/relationships.py:78-81 | the only definition of a name is linked from every call of it, wherever it is |
| `Relationships.SameModuleOnly` | backend/intelligence/relationships.py:82-86 | with ids built as module + "::" + name and module names without a colon, a call of an ambiguous name is linked to exactly those definitions that are in the module of the caller |
| `Relationships.DependsMeans` | backend/intelligence/relationships.py:16-35 | a file depends on another exactly if that is the file of the last module with the longest name that is the imported name or a dotted prefix of it |
| `FeatureTracing.BuildAdjacency` | backend/intelligence/feature_tracing.py:15-32 | each lookup map lists, in order, what a scan of the relationships finds |
| `FeatureTracing.Expand` | backend/intelligence/feature_tracing.py:62-86 | one expansion stage finds exactly the neighbours of its frontier and emits each relationship once per endpoint in the frontier |
| `FeatureTracing.ImportEdges` | backend/intelligence/feature_tracing.py:88-96 | import edges are emitted between active nodes once per import of the target's file by the source's file |
| `FeatureTracing.LayerIsLeast` | backend/intelligence/feature_tracing.py:98-114 | the first keyword of the sorted table is the least layer among all keywords mentioned, and 99 stands for none |
| `FeatureTracing.BuildFlow` | backend/intelligence/feature_tracing.py:116-133 | a flow is the layered nodes in non-decreasing layer, else at most ten nodes of highest degree; it is empty only if there are no nodes, so the last fallback is never taken |
| `FeatureTracing.TraceFeature` | backend/intelligence/feature_tracing.py:9-139 | stated on the relationships alone: the nodes are exactly the model entities among the seeds, their DEPENDS_ON neighbours and the CALLS neighbours of both; the multiplicity of every edge is exact; the flow is the layered nodes by layer, or else the ten of highest degree |
| `FeatureTracing.LayerMeans` | backend/intelligence/feature_tracing.py:98-114 | which keywords put a node into each layer or an earlier one; the rest is in layer 99 |
| `FeatureTracing.DegreeMeans` | backend/intelligence/feature_tracing.py:124-133 | the degree of a node is the number of edges that leave it plus the number that enter it |
| `TaskManager.Delivery` | backend/task_manager.py:48-77 | under any interleaving of notifying threads, subscriptions and loop steps, what a queue has received followed by what is pending for it is, in scheduling order, every notice whose snapshot contained it and that has reached it, exactly once, and none of another key |
| `TaskManager.FinishedNotify` | backend/task_manager.py:72-75 | when a notify has returned, each queue of its snapshot has its payload exactly once and no other queue has it |
| `TaskManager.WhoIsNotified` | backend/task_manager.py:66-77 | in every run, a notify has taken exactly the queues that subscriptions to its key had returned by then and that had not been unsubscribed, at a step after the loop was set |
| `TaskManager.NoticesAreRecorded` | backend/task_manager.py:48-60 | the recorded notices are those of the notify steps so far, in order |
| `TaskManager.QueuesAreNumbered` | backend/task_manager.py:83-87 | each subscription returns the queue numbered by the subscriptions before it, for its own key |
| `TaskManager.OfQueuePicks` | backend/task_manager.py:70-75 | what the other results say of one queue is about exactly its items, in their order |
| `TaskManager.LastStatusMeans` | backend/task_manager.py:79-81 | the last status is that of the last notice for the task, and there is none exactly if there is no such notice |
| `QueueOrder.ReachedBeforeArrivesBefore` | backend/task_manager.py:72-75 | if one notify had already reached a queue when another was still to take its snapshot, the queue never gets the later one first |
| `QueueOrder.CanOvertakeIff` | backend/task_manager.py:72-75 | of two notices of one key, one of which has not looked at the subscribers yet, a queue can still get that one first if and only if it is subscribed then and the other has yet to reach it |
| `QueueOrder.ReachedFirstIsInOrder` | backend/task_manager.py:48-77 | if at every look the earlier notices of the key have reached every subscriber, each queue is served in the order the statuses were recorded |
| `QueueOrder.ReachedFirstIff` | backend/task_manager.py:48-77 | that holds of a run exactly if at no look the run could go on with an earlier notice overtaken |
| `QueueOrder.SerialIsInOrder` | backend/task_manager.py:48-77 | if notifies for a key never overlap, every queue is served strictly in the order the statuses were recorded |
| `QueueOrder.QueueMayEndStale` | backend/task_manager.py:48-77 | two overlapping notifies: a run in which the queue receives the older status last while `get_all` returns the newer |
| `TaskManager.GetAllIsLastStatus` | backend/task_manager.py:79-81 | at any time `get_all` has, per task name, exactly the status recorded last |
| `TaskManager.CallbackEnabled` | backend/task_manager.py:72-75 | a pending callback can always run |
| `TaskManager.StepKeepsInv` | backend/task_manager.py:48-91 | every step of any thread keeps the invariant behind these |
| `TaskManager.NothingWithoutLoop` | backend/task_manager.py:40-77 | until a loop is set, no interleaving schedules or delivers anything |
| `TaskManager.NotifyAlone` | backend/task_manager.py:48-77 | a notify that nothing interrupts has the effect of the method |
| `TaskManager.Manager.Notify` | backend/task_manager.py:48-77 | records the notice, sets the status of its key and task and no other, and appends one callback with the payload for each queue subscribed to the key and no other; nothing is scheduled without an open loop |
| `TaskManager.Manager.GetAll` | backend/task_manager.py:79-81 | returns, for every task of the key, the status it was last notified with, and nothing for other tasks |
| `TaskManager.Manager.Subscribe` | backend/task_manager.py:83-87 | a queue that no key has had before is subscribed to the key, and nothing else changes |
| `TaskManager.Manager.Unsubscribe` | backend/task_manager.py:89-91 | exactly this queue is no longer subscribed to this key |
| `Evidences.FactoriesSucceed` | backend/investigation/evidence.py:105-212 | exactly for which arguments each factory passes the checks of the constructor |
| `Evidences.WhatSuffices` | backend/investigation/evidence.py:144-221 | only source code and parser output make evidence that suffices for confirmation |
| `Evidences.ConfidenceSeparates` | backend/investigation/evidence.py:124-142 | on evidence that passed the checks, confidence 0.9 is reached exactly by DIRECT evidence |
| `Evidences.CreationMeans` | backend/investigation/evidence.py:56-103 | exactly which evidence can be constructed: which kinds each confidence allows, and which texts are refused |
| `Evidences.FactoriesGive` | backend/investigation/evidence.py:105-212 | the kind, confidence, source, location and observation that each factory gives |
| `Findings.Finding.AdvanceStatus` | backend/investigation/finding.py:158-213 | changes the status exactly when the table allows it, and nothing else |
| `Findings.Finding.HasDirectEvidence` | backend/investigation/finding.py:215-247 | the loop finds DIRECT evidence iff there is some and no contradiction is set |
| `Findings.Finding.IsReadyForConfirmation` | backend/investigation/finding.py:249-312 | returns or raises what the specification says, check by check |
| `Findings.ReadyMeans` | backend/investigation/finding.py:249-312 | accepted iff independently verified at least once with uncontradicted DIRECT evidence, and for negative claims with DIRECT ground truth (of absence, for ABSENT); it raises only for negative claims |
| `Findings.EnteredFrom` | backend/investigation/finding.py:158-203 | the transition table read the other way round: from which statuses each one is entered, for each type of claim |
| `Findings.GroundTruthComesFirst` | backend/investigation/finding.py:158-203 | in every history of status changes, a claim past HYPOTHESIS has been GROUND_TRUTH_VERIFIED if and only if it is negative |
| `Findings.ConfirmedAfterVerification` | backend/investigation/finding.py:158-203 | CONFIRMED is reached only straight from INDEPENDENTLY_VERIFIED straight from INVESTIGATED, after at least four changes, five for a negative claim |
| `Findings.TableAsksForNoEvidence` | backend/investigation/finding.py:205-213 | any finding at INDEPENDENTLY_VERIFIED, and at no other status, can be advanced to CONFIRMED, whatever evidence is on it |
| `Findings.TruthMattersForAbsent` | backend/investigation/finding.py:281-312 | which truth was verified matters for ABSENT claims only, and for them it must be absence |
| `Findings.MissingAcceptsExists` | backend/investigation/finding.py:281-312 | a MISSING claim whose verified truth is EXISTS is ready to be confirmed |
| `Investigation.GroundTruthIsRight` | backend/investigation/ground_truth.py:89-147 | the validator never violates its result's own checks, never claims absence, and finds a symbol iff some function or class has exactly its name |
| `Investigation.ScoutAgent.InvestigateSymbol` | backend/investigation/scout.py:116-183 | reports a function, else a class, else nothing, and numbers the report |
| `Investigation.ScoutAgent.InvestigateAbsence` | backend/investigation/scout.py:185-218 | reports an absence exactly when neither lookup finds anything |
| `Investigation.ScoutAgent.InvestigateRoute` | backend/investigation/scout.py:220-257 | reports the first matching route entity, or nothing when there is none |
| `Verifications.ScoutedSymbol` | backend/investigation/scout.py:116-183 | a symbol is reported exactly if a function or class has the name, with INDIRECT evidence at the line of the one meant and the sentence that names it between quotes |
| `Verifications.ScoutedAbsence` | backend/investigation/scout.py:185-218 | an absence is reported exactly if no function and no class has the name, as a claim that asks for ground truth |
| `Verifications.ScoutedRoute` | backend/investigation/scout.py:220-257 | which route entities match, and what is said of one: the method asked for, or "*", and the path |
| `ClaimText.HypothesisIdsDiffer` | backend/investigation/scout.py:111-114 | no two numbers give the same identifier |
| `ClaimText.HypothesisIdMeans` | backend/investigation/scout.py:111-114 | an identifier is "SCOUT-HYP-" and the number in decimal, filled up with zeros to three digits |
| `ClaimText.WordsMean` | backend/investigation/verifier.py:135-137 | splitting at white space, word by word |
| `Basics.JoinSplit` | backend/investigation/verifier.py:127-131 | splitting a claim at quotes loses nothing and leaves no quote in a part |
| `Investigation.VerificationAgent.Verify` | backend/investigation/verifier.py:88-113 | the three verification methods, with their finding updated field by field, return what the specification says |
| `Investigation.VerificationAgent.FirstPass` | backend/investigation/verifier.py:146-165 | the loop confirms with the ground truth of the first entity that passes |
| `Investigation.ExistenceVerdict` | backend/investigation/verifier.py:115-236 | an existence claim is CONFIRMED iff some function or class has the name ignoring case, always in the first pass, and is never REFUTED |
| `Investigation.AbsenceVerdict` | backend/investigation/verifier.py:238-339 | an absence claim is REFUTED iff the name is defined and never CONFIRMED |
| `Verifications.GroundTruthPoints` | backend/investigation/ground_truth.py:89-147 | ground truth points at the first function of the name, or at the first class if there is no such function, and is missing exactly if there is neither |
| `Verifications.ConfirmedRecord` | backend/investigation/verifier.py:115-236 | a confirmed existence claim: the evidence is at the line of the function or class meant by the first entity whose name is the subject ignoring case and is defined, and the finding carries it as evidence and as ground truth that it exists, in the first attempt |
| `Verifications.RefutedRecord` | backend/investigation/verifier.py:238-339 | a refuted absence claim: the evidence is at the line of the entity meant by the subject, and the finding says in which file it was found |
| `Verifications.UnresolvedRecord` | backend/investigation/verifier.py:115-358 | an unresolved finding keeps its own evidence, and how many attempts are counted |
| `Verifications.OtherClaimsStayOpen` | backend/investigation/verifier.py:341-358 | claims of other types are left unresolved whatever the repository holds |
| `Verifications.QuotedTarget` | backend/investigation/verifier.py:124-137 | the subject of a claim with a quote is the text between the first quote and the next, or the end |
| `Verifications.FirstAlphabeticMeans` | backend/investigation/verifier.py:252-260 | the first word that begins with a letter, and none exactly if no word does |
| `Verifications.UnquotedTarget` | backend/investigation/verifier.py:124-137 | without a quote, the subject of an existence claim is its first word, and that of an absence claim its first word that begins with a letter |
| `Verifications.NoTarget` | backend/investigation/verifier.py:124-146 | a claim without words has no subject; white space makes the existence check raise |
| `Investigation.VerificationRaises` | backend/investigation/verifier.py:126-136 | verification raises only for an existence claim of nothing but white space |
| `Investigation.VerdictsAndReadiness` | backend/investigation/verifier.py:88-339 | for every hypothesis: `is_ready_for_confirmation` accepts the verified finding iff the verdict is CONFIRMED and never raises; both final statuses are allowed iff there is a verdict; the evidence attached is exactly the verifier's own, and sufficient |
| `Investigation.ScoutedSymbolVerdict` | backend/investigation/verifier.py:115-236 | the verdict on any reported symbol, whatever its name |
| `Investigation.ScoutedSymbolIsConfirmed` | backend/investigation/scout.py:116-183 | a reported symbol with a non-empty quote-free name is CONFIRMED, ready, and may be advanced to CONFIRMED |
| `Investigation.AlwaysConfirmedIff` | backend/investigation/verifier.py:124-139 | a name is confirmed in every repository that makes the scout report it if and only if it is non-empty and quote-free |
| `Investigation.ScoutedAbsenceVerdict` | backend/investigation/verifier.py:247-282 | a reported absence is REFUTED exactly when the name has a quote and the part before it is defined; otherwise it stays UNRESOLVED |
| `Investigation.RouteTarget` | backend/investigation/verifier.py:124-136 | the subject of a route claim is its first word, "Route", or what stands between its first two quotes if it has any |
| `Investigation.RouteQuotes` | backend/investigation/scout.py:220-257 | a route claim has quotes exactly if the method or the path has |
| `Investigation.ScoutedRouteVerdict` | backend/investigation/verifier.py:115-236 | any reported route is CONFIRMED iff some function or class has the name of that subject, ignoring case |
| `Evaluation.RemoveRepeats` | backend/evaluation/evaluator.py:54-62 | the ranking loop keeps each file at its first occurrence |
| `Evaluation.DistinctMeaning` | backend/evaluation/evaluator.py:54-62 | that list has no repetition, the same files, and grows by prefixes |
| `Evaluation.DistinctOrder` | backend/evaluation/evaluator.py:54-62 | the ranking lists the files in the order of their first occurrence |
| `Evaluation.NormalizedConcat` | backend/evaluation/evaluator.py:54-62 | normalization works entry by entry, so only empty entries are left out and the order stays |
| `Evaluation.RetrievalMetrics` | backend/evaluation/evaluator.py:42-120 | the sets and counts, the leaked files (exactly the ranked ones without the prefix, each once), and every published ratio of them, rounded |
| `Evaluation.OutsideMeaning` | backend/evaluation/evaluator.py:97-104 | the files outside a prefix are exactly the ranked ones that do not start with it, without repetition if the ranking has none |
| `Evaluation.PublishedRecalls` | backend/evaluation/evaluator.py:103-111 | under monotone rounding the published recalls grow from K=1 to K=10 up to evidence recall, within [0, 1], and the last two agree for at most ten ranked files |
| `Evaluation.RelevantHitsMeaning` | backend/evaluation/evaluator.py:76-82 | relevant hits are at most the ranked files, and all of them exactly if every one is relevant |
| `Evaluation.RecallLaws` | backend/evaluation/evaluator.py:75-90 | recall@K is in [0, 1], monotone in K, at most evidence recall, equal to it once K covers the ranking, and 1 iff every required file is met in the first K |
| `Evaluation.RecallMeans` | backend/evaluation/evaluator.py:85-90 | recall@K is the share of wanted files that are part of one of the first K ranked files or contain one |
| `Evaluation.RelevantHitsCount` | backend/evaluation/evaluator.py:76-82 | relevant hits are the ranked files that are part of a relevant one or contain one |
| `Evaluation.OccursMeans` | backend/evaluation/evaluator.py:67-70 | one text is part of another exactly if the other is something, it, and something |
| `Evaluation.RoundedRecallLaws` | backend/evaluation/evaluator.py:103-111 | the same order after any monotone rounding |
| `Evaluation.FoundAndMissed` | backend/evaluation/evaluator.py:68-69 | found and missed evidence partition the required set, and missed means like no retrieved file |
| `Evaluation.ToolEfficiency` | backend/evaluation/evaluator.py:123-233 | every counter of the loop equals its independent count, and the first useful evidence is timed at the prefix sum of durations through the first required read |
| `Evaluation.CallsMean` | backend/evaluation/evaluator.py:161-180 | calls, successes and failures, counted over the turns |
| `Evaluation.SearchesMean` | backend/evaluation/evaluator.py:182-214 | searches and useful calls, counted over the turns |
| `Evaluation.OddCallsMean` | backend/evaluation/evaluator.py:167-180 | calls of unregistered and of unexpected tools, counted over the turns |
| `Evaluation.RedundantCounts` | backend/evaluation/evaluator.py:192-196 | redundant calls are the turns that call what an earlier turn has called with the same arguments |
| `Evaluation.FilesReadMean` | backend/evaluation/evaluator.py:185-190 | a file counts as read exactly if a successful read_file was called on it |
| `Evaluation.FirstEvidenceMeans` | backend/evaluation/evaluator.py:185-190 | the first evidence is dated at the end of the first successful read_file of a required file |
| `Evaluation.CallsAddUp` | backend/evaluation/evaluator.py:166-180 | successful and failed calls add up to the calls |
| `Evaluation.RedundantOrDistinct` | backend/evaluation/evaluator.py:192-196 | redundant calls and distinct signatures add up to the calls |
| `Evaluation.ReadsAndSearches` | backend/evaluation/evaluator.py:182-190 | searches and files read are at most the calls |
| `Evaluation.RatesAreRatios` | backend/evaluation/evaluator.py:208-224 | the rates are in [0, 1], useful is at most successful, and not every call is redundant |
| `Evaluation.EvidenceWithinRun` | backend/evaluation/evaluator.py:163-196 | the time to first evidence is at most the whole run when no duration is negative |
| `Evaluation.LeakageReported` | backend/evaluation/evaluator.py:97-120 | files from another repository decide the failure category exactly above one in twenty thousand retrieved files, or at that rate if it rounds up; otherwise the rounded rate hides them; without such a file there is no leakage failure |
| `Evaluation.FailureMeans` | backend/evaluation/evaluator.py:310-370 | all nine categories, each by an if-and-only-if on correctness, recall, leakage, groundedness, completeness and the calls of the run |
| `Evaluation.ValidityMeans` | backend/evaluation/evaluator.py:310-329 | the four validities are exactly the four quadrants of correctness and evidence recall at the threshold |

## Left out

- ExecutionIsOnRecord: asks that filed plan approvals be telling ones; `NeverMisleadsIff` shows that no weaker condition on what is filed will do.
- AllPassIff: speaks of plans with distinct task ids; with a shared id, starting by id may refuse a task that is not READY.
- FormatTreeIsInjective: asks for trees without empty directories and names without "/", which is what the insertion loop builds from split paths; an empty directory and a file print alike.
- BuildHolds: asks for prefix-free paths; `BuildShows` says which paths the trie holds otherwise. Paths whose first or last component is empty, which name no file, are not covered.
- PagingReadsAll: pages follow calls without context lines and without a symbol.
- AlwaysConfirmedIff: assumes only that case folding neither makes nor removes a quote.
- The implementation-terminal node of the agent graph, which stores a plan and files its own PLAN_APPROVAL, is not part of the run model.
- Concurrent interleaving inside one run operation, sessions, commits and swallowed database errors.
- The lookup of a run by id, blank requirements, event and log texts, timestamps beyond set and order.
- `record_repair_result` and the executor's own work; the planner's, the executor's and the verifier's answers are inputs.
- `read_file`: symbol lookup, fetching and splitting the file, and notices; the pattern that recognises a definition line is any predicate on lines; white space is space, tab, line feed and carriage return.
- The verifier's letters are those of ASCII.
- `get_tree`: the branch that walks a local file system, and the collection of paths from snapshots. The walk of `add_to_tree` goes from dictionary to dictionary by recursion.
- `RelationshipBuilder.build`: reading and parsing the files; the calls of a file are an input, empty when parsing fails.
- `QueryLayer`: the untyped views `get_forward_relationships` and `get_reverse_relationships`, and the one-line filters over directories and files.
- `TaskManager`: the JSON form of a payload; within one notify, the status update is one step; a loop that is set stays open.
- Scouting and validating features, files and services, and finding packets: the same shape as symbols and routes.
- The background loop's own bookkeeping: it reports success from the executor's results alone, and an exception ends the run as failed.
- Citation extraction and everything judged by a language model.
