/**
 * backend/agent/state_machine.py and the state-to-status map of
 * backend/models/implementation.py: the transition table of an agent run and
 * what every walk through it looks like.
 */
module AgentStateMachine {

  datatype AgentState =
    | Idle | Understanding | Planning | AwaitingApproval | Executing | Verifying
    | Completed | Failed | Cancelled

  /** AgentRunStatus, the coarse status kept for older queries. */
  datatype LegacyStatus = Queued | InProgress | BeingVerified | Repairing | Succeeded | Unsuccessful

  datatype Transition = Transition(from: AgentState, to: AgentState)

  /** VALID_TRANSITIONS. */
  function ValidTransitions(s: AgentState): set<AgentState> {
    match s
    case Idle => {Understanding, Failed, Cancelled}
    case Understanding => {Planning, AwaitingApproval, Executing, Completed, Failed, Cancelled}
    case Planning => {AwaitingApproval, Executing, Failed, Cancelled}
    case AwaitingApproval => {Executing, Planning, Failed, Cancelled}
    case Executing => {AwaitingApproval, Verifying, Completed, Failed, Cancelled}
    case Verifying => {Completed, Failed, Cancelled}
    case Completed | Failed | Cancelled => {}
  }

  /** TERMINAL_STATES, listed on its own in the source. */
  predicate IsTerminal(s: AgentState) {
    s in {Completed, Failed, Cancelled}
  }

  /** validate_transition: the terminal lock first, then the table. */
  predicate CanTransition(from: AgentState, to: AgentState) {
    !IsTerminal(from) && to in ValidTransitions(from)
  }

  /** map_agent_state_to_legacy_status. */
  function Legacy(s: AgentState): LegacyStatus {
    match s
    case Idle => Queued
    case Understanding | Planning | AwaitingApproval | Executing => InProgress
    case Verifying => BeingVerified
    case Completed => Succeeded
    case Failed | Cancelled => Unsuccessful
  }

  /** The two lists agree, and an active run can always fail or be cancelled. */
  lemma TerminalIffNoWayOut(s: AgentState)
    ensures IsTerminal(s) <==> forall t :: !CanTransition(s, t)
    ensures !IsTerminal(s) ==> CanTransition(s, Failed) && CanTransition(s, Cancelled)
  {
    if !IsTerminal(s) {
      assert CanTransition(s, Failed);
    }
  }

  /** The table read the other way round: the states from which each state is entered. */
  function Sources(s: AgentState): set<AgentState> {
    match s
    case Idle => {}
    case Understanding => {Idle}
    case Planning => {Understanding, AwaitingApproval}
    case AwaitingApproval => {Understanding, Planning, Executing}
    case Executing => {Understanding, Planning, AwaitingApproval}
    case Verifying => {Executing}
    case Completed => {Understanding, Executing, Verifying}
    case Failed | Cancelled => {Idle, Understanding, Planning, AwaitingApproval, Executing, Verifying}
  }

  lemma EnteredFrom(from: AgentState, to: AgentState)
    ensures CanTransition(from, to) <==> from in Sources(to)
  {}

  /** Which states each legacy status stands for; none is ever reported as REPAIRING. */
  lemma LegacyMeans(s: AgentState)
    ensures Legacy(s) == Queued <==> s == Idle
    ensures Legacy(s) == InProgress <==> s in {Understanding, Planning, AwaitingApproval, Executing}
    ensures Legacy(s) == BeingVerified <==> s == Verifying
    ensures Legacy(s) == Succeeded <==> s == Completed
    ensures Legacy(s) == Unsuccessful <==> s in {Failed, Cancelled}
    ensures Legacy(s) != Repairing
  {}

  // ---------------------------------------------------------------- walks

  /** Where a log that starts in IDLE ends. */
  function End(log: seq<Transition>): AgentState {
    if log == [] then Idle else log[|log| - 1].to
  }

  /** Every record is an edge of the table and starts where the previous one ended. */
  predicate IsWalk(log: seq<Transition>) {
    log != [] ==>
      var init, last := log[..|log| - 1], log[|log| - 1];
      IsWalk(init) && last.from == End(init) && CanTransition(last.from, last.to)
  }

  /** How often the log enters `s`. */
  function Entries(log: seq<Transition>, s: AgentState): nat {
    if log == [] then 0
    else Entries(log[..|log| - 1], s) + (if log[|log| - 1].to == s then 1 else 0)
  }

  lemma WalkAppend(log: seq<Transition>, t: Transition)
    ensures IsWalk(log + [t]) <==> IsWalk(log) && t.from == End(log) && CanTransition(t.from, t.to)
    ensures End(log + [t]) == t.to
    ensures forall s :: Entries(log + [t], s) == Entries(log, s) + (if t.to == s then 1 else 0)
  {
    assert (log + [t])[..|log|] == log;
  }

  /** Record `i` leaves the state that the one before entered, the first one IDLE, for a state that can be entered from there. */
  predicate StepsOn(log: seq<Transition>, i: nat)
    requires i < |log|
  {
    log[i].from == (if i == 0 then Idle else log[i - 1].to) && log[i].from in Sources(log[i].to)
  }

  /** A walk, record by record. */
  lemma {:induction false} WalkMeans(log: seq<Transition>)
    ensures IsWalk(log) <==> forall i :: 0 <= i < |log| ==> StepsOn(log, i)
  {
    if log != [] {
      var n := |log| - 1;
      var init := log[..n];
      WalkMeans(init);
      EnteredFrom(log[n].from, log[n].to);
      forall i | 0 <= i < n ensures StepsOn(init, i) <==> StepsOn(log, i) {
        assert init[i] == log[i] && (i > 0 ==> init[i - 1] == log[i - 1]);
      }
      assert StepsOn(log, n) <==> log[n].from == End(init) && CanTransition(log[n].from, log[n].to);
      if IsWalk(log) {
        assert forall i :: 0 <= i < n ==> StepsOn(init, i);
      }
    }
  }

  /** Steps a walk can have taken since its last entry into AWAITING_APPROVAL. */
  function Height(s: AgentState): nat {
    match s
    case Idle => 0
    case Understanding => 1
    case AwaitingApproval => 1
    case Planning => 2
    case Executing => 3
    case Verifying => 4
    case Completed | Failed | Cancelled => 5
  }

  /** A run cannot move for ever without a human being asked again. */
  lemma {:induction false} WalkLength(log: seq<Transition>)
    requires IsWalk(log)
    ensures |log| <= 3 * Entries(log, AwaitingApproval) + Height(End(log))
    ensures |log| <= 3 * Entries(log, AwaitingApproval) + 5
  {
    if log != [] {
      WalkLength(log[..|log| - 1]);
    }
  }

  /** One more record on a walk, with what it does to the measures of WalkLength. */
  lemma Extend(w: seq<Transition>, to: AgentState) returns (v: seq<Transition>)
    requires IsWalk(w) && CanTransition(End(w), to)
    ensures IsWalk(v) && End(v) == to && |v| == |w| + 1
    ensures Entries(v, AwaitingApproval) == Entries(w, AwaitingApproval) + if to == AwaitingApproval then 1 else 0
  {
    WalkAppend(w, Transition(End(w), to));
    v := w + [Transition(End(w), to)];
  }

  /** The longest walk that asks `n` times. */
  lemma {:induction false} LongestPaused(n: nat) returns (w: seq<Transition>)
    requires n > 0
    ensures IsWalk(w) && End(w) == AwaitingApproval && Entries(w, AwaitingApproval) == n && |w| == 3 * n + 1
  {
    if n == 1 {
      w := Extend([], Understanding);
    } else {
      w := LongestPaused(n - 1);
    }
    w := Extend(w, Planning);
    w := Extend(w, Executing);
    w := Extend(w, AwaitingApproval);
  }

  /** The bound of WalkLength is reached for every number of pauses. */
  lemma WalkLengthTight(n: nat)
    requires n > 0
    ensures exists w: seq<Transition> ::
              IsWalk(w) && Entries(w, AwaitingApproval) == n && |w| == 3 * n + 5
  {
    var w := LongestPaused(n);
    w := Extend(w, Planning);
    w := Extend(w, Executing);
    w := Extend(w, Verifying);
    w := Extend(w, Completed);
  }

  /** A walk that ends COMPLETED and never entered EXECUTING is the informational fast path. */
  lemma CompletedWithoutExecuting(log: seq<Transition>)
    requires IsWalk(log) && End(log) == Completed
    ensures Entries(log, Executing) == 0
            <==> log == [Transition(Idle, Understanding), Transition(Understanding, Completed)]
  {
    var init := log[..|log| - 1];
    assert log == init + [log[|log| - 1]];
    NotYetExecuting(init);
    if Entries(log, Executing) == 0 {
      assert End(init) == Understanding;
    }
    var fast := [Transition(Idle, Understanding), Transition(Understanding, Completed)];
    assert fast[..1] == [Transition(Idle, Understanding)];
    assert Entries(fast[..1], Executing) == 0;
  }

  lemma {:induction false} NotYetExecuting(log: seq<Transition>)
    requires IsWalk(log)
    ensures End(log) == Understanding ==> log == [Transition(Idle, Understanding)]
    ensures End(log) == Verifying || End(log) == Executing ==> Entries(log, Executing) > 0
    ensures End(log) == Idle ==> log == []
  {
    if log != [] {
      var init := log[..|log| - 1];
      assert log == init + [log[|log| - 1]];
      NotYetExecuting(init);
    }
  }
}
