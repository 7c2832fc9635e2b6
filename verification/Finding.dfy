/**
 * backend/investigation/finding.py: the life of a finding, its transition
 * table, and what it takes to be confirmed.
 */
module Findings {
  import opened Basics
  import opened Evidences

  datatype Status =
    | Observed | Hypothesized | GroundTruthVerified | Investigated | IndependentlyVerified
    | Confirmed | Refuted | Unresolved

  datatype ClaimType =
    | ExistsClaim | AbsentClaim | MissingClaim | FunctionalClaim
    | RetrievalFailure | ParserFailure | IndexFailure

  datatype Truth = TruthExists | TruthAbsent

  /** The fields of a finding; an empty `contradiction` is one that is not set. */
  datatype Record = Record(
    claim: string, claimType: ClaimType, status: Status, evidence: seq<ValidEvidence>,
    groundTruthClaim: Option<Truth>, groundTruthEvidence: Option<ValidEvidence>,
    attempts: nat, contradiction: string)

  predicate IsNegative(claimType: ClaimType) {
    claimType in {AbsentClaim, MissingClaim}
  }

  /** valid_transitions */
  function Allowed(claimType: ClaimType, status: Status): set<Status> {
    match status
    case Observed => {Hypothesized}
    case Hypothesized => if IsNegative(claimType) then {GroundTruthVerified} else {Investigated}
    case GroundTruthVerified => {Investigated}
    case Investigated => {IndependentlyVerified}
    case IndependentlyVerified => {Confirmed, Refuted, Unresolved}
    case Confirmed => {Refuted}
    case Refuted | Unresolved => {Investigated}
  }

  /** has_direct_evidence */
  predicate DirectlyProved(r: Record) {
    r.contradiction == "" && exists e :: e in r.evidence && SufficientForConfirmation(e)
  }

  datatype Failure = MissingGroundTruth | IndexError

  /** is_ready_for_confirmation */
  function Ready(r: Record): Result<bool, Failure> {
    if r.status != IndependentlyVerified || r.attempts < 1 || !DirectlyProved(r) || r.contradiction != "" then Ok(false)
    else if !IsNegative(r.claimType) then Ok(true)
    else if r.groundTruthClaim == None || r.groundTruthEvidence == None then Err(MissingGroundTruth)
    else if r.claimType == AbsentClaim && r.groundTruthClaim.value != TruthAbsent then Err(MissingGroundTruth)
    else if r.groundTruthEvidence.value.kind != Direct then Err(MissingGroundTruth)
    else if r.groundTruthEvidence.value.confidence < 0.9 then Err(MissingGroundTruth)
    else Ok(true)
  }

  class Finding {
    const claim: string
    const claimType: ClaimType
    var status: Status
    var evidence: seq<ValidEvidence>
    var groundTruthClaim: Option<Truth>
    var groundTruthEvidence: Option<ValidEvidence>
    var attempts: nat
    var contradiction: string

    function Now(): Record
      reads this
    {
      Record(claim, claimType, status, evidence, groundTruthClaim, groundTruthEvidence, attempts, contradiction)
    }

    constructor (claim: string, claimType: ClaimType, evidence: seq<ValidEvidence>)
      ensures Now() == Record(claim, claimType, Observed, evidence, None, None, 0, "")
    {
      this.claim, this.claimType, this.evidence := claim, claimType, evidence;
      status, groundTruthClaim, groundTruthEvidence, attempts, contradiction := Observed, None, None, 0, "";
    }

    /** advance_status; a refused transition raises InvalidFindingStateError. */
    method AdvanceStatus(newStatus: Status) returns (accepted: bool)
      modifies this`status
      ensures accepted <==> newStatus in Allowed(claimType, old(status))
      ensures Now() == if accepted then old(Now()).(status := newStatus) else old(Now())
    {
      accepted := newStatus in Allowed(claimType, status);
      if accepted {
        status := newStatus;
      }
    }

    method HasDirectEvidence() returns (found: bool)
      ensures found <==> contradiction == "" && exists e :: e in evidence && e.kind == Direct && e.confidence >= 0.9
    {
      assert forall e :: SufficientForConfirmation(e) <==> e.kind == Direct && e.confidence >= 0.9;
      if contradiction != "" || evidence == [] {
        return false;
      }
      for i := 0 to |evidence|
        invariant forall k :: 0 <= k < i ==> !SufficientForConfirmation(evidence[k])
      {
        if evidence[i].kind == Direct && evidence[i].confidence >= 0.9 {
          assert SufficientForConfirmation(evidence[i]);
          return true;
        }
      }
      return false;
    }

    method IsReadyForConfirmation() returns (ready: Result<bool, Failure>)
      ensures ready == Ready(Now())
    {
      if status != IndependentlyVerified || attempts < 1 {
        return Ok(false);
      }
      var direct := HasDirectEvidence();
      assert direct == DirectlyProved(Now());
      if !direct || contradiction != "" {
        return Ok(false);
      }
      if claimType in {AbsentClaim, MissingClaim} {
        if groundTruthClaim == None {
          return Err(MissingGroundTruth);
        }
        if groundTruthEvidence == None {
          return Err(MissingGroundTruth);
        }
        if claimType == AbsentClaim && groundTruthClaim != Some(TruthAbsent) {
          return Err(MissingGroundTruth);
        }
        if groundTruthEvidence.value.kind != Direct {
          return Err(MissingGroundTruth);
        }
        if groundTruthEvidence.value.confidence < 0.9 {
          return Err(MissingGroundTruth);
        }
      }
      return Ok(true);
    }
  }

  /** The table read the other way round: the statuses from which each status is entered. */
  lemma EnteredFrom(claimType: ClaimType, s: Status)
    ensures forall t :: Observed !in Allowed(claimType, t)
    ensures Hypothesized in Allowed(claimType, s) <==> s == Observed
    ensures GroundTruthVerified in Allowed(claimType, s) <==> s == Hypothesized && claimType in {AbsentClaim, MissingClaim}
    ensures Investigated in Allowed(claimType, s) <==>
              s in {GroundTruthVerified, Refuted, Unresolved} || (s == Hypothesized && claimType !in {AbsentClaim, MissingClaim})
    ensures IndependentlyVerified in Allowed(claimType, s) <==> s == Investigated
    ensures Confirmed in Allowed(claimType, s) <==> s == IndependentlyVerified
    ensures Refuted in Allowed(claimType, s) <==> s in {IndependentlyVerified, Confirmed}
    ensures Unresolved in Allowed(claimType, s) <==> s == IndependentlyVerified
  {}

  /** A finding can be confirmed exactly when independent, uncontradicted DIRECT evidence is on it. */
  lemma ReadyMeans(r: Record)
    ensures Ready(r) == Ok(true) <==>
            && r.status == IndependentlyVerified && r.attempts >= 1 && r.contradiction == ""
            && (exists e :: e in r.evidence && e.kind == Direct)
            && (r.claimType in {AbsentClaim, MissingClaim} ==>
                  && r.groundTruthEvidence.Some? && r.groundTruthEvidence.value.kind == Direct
                  && r.groundTruthClaim.Some? && (r.claimType == AbsentClaim ==> r.groundTruthClaim.value == TruthAbsent))
    // it raises exactly when all but the ground truth of a negative claim is there
    ensures Ready(r).Err? <==>
            && r.status == IndependentlyVerified && r.attempts >= 1 && r.contradiction == ""
            && (exists e :: e in r.evidence && e.kind == Direct)
            && r.claimType in {AbsentClaim, MissingClaim}
            && !(&& r.groundTruthEvidence.Some? && r.groundTruthEvidence.value.kind == Direct
                 && r.groundTruthClaim.Some? && (r.claimType == AbsentClaim ==> r.groundTruthClaim.value == TruthAbsent))
  {
    forall e: ValidEvidence ensures SufficientForConfirmation(e) <==> e.kind == Direct {
      ConfidenceSeparates(e);
    }
  }

  // --------------------------------------------------- histories of statuses

  /** `trace[..n + 1]` is what successive advance_status calls on a new finding can produce. */
  predicate Walk(claimType: ClaimType, trace: seq<Status>, n: nat)
    requires n < |trace|
  {
    if n == 0 then trace[0] == Observed
    else Walk(claimType, trace, n - 1) && trace[n] in Allowed(claimType, trace[n - 1])
  }

  lemma {:induction false} WalkPrefix(claimType: ClaimType, trace: seq<Status>, k: nat, n: nat)
    requires k <= n < |trace| && Walk(claimType, trace, n)
    ensures Walk(claimType, trace, k)
  {
    if k < n {
      WalkPrefix(claimType, trace, k, n - 1);
    }
  }

  /** A negative claim never gets past HYPOTHESIS without ground truth; a positive one never stops there. */
  lemma {:induction false} GroundTruthComesFirst(claimType: ClaimType, trace: seq<Status>, n: nat)
    requires n < |trace| && Walk(claimType, trace, n)
    requires trace[n] !in {Observed, Hypothesized}
    ensures (exists k :: 0 <= k <= n && trace[k] == GroundTruthVerified) <==> claimType in {AbsentClaim, MissingClaim}
  {
    if trace[n - 1] in {Observed, Hypothesized} {
      StartOfWalk(claimType, trace, n - 1);
    } else {
      GroundTruthComesFirst(claimType, trace, n - 1);
      assert !IsNegative(claimType) ==> trace[n] != GroundTruthVerified;
    }
  }

  /** A finding is only OBSERVED and HYPOTHESIS at the very beginning. */
  lemma {:induction false} StartOfWalk(claimType: ClaimType, trace: seq<Status>, n: nat)
    requires n < |trace| && Walk(claimType, trace, n)
    ensures trace[n] == Observed <==> n == 0
    ensures trace[n] == Hypothesized <==> n == 1
  {
    if n > 0 {
      StartOfWalk(claimType, trace, n - 1);
    }
  }

  /** Every confirmation comes straight from independent verification, and that from an investigation. */
  lemma ConfirmedAfterVerification(claimType: ClaimType, trace: seq<Status>, n: nat)
    requires n < |trace| && Walk(claimType, trace, n) && trace[n] == Confirmed
    ensures n >= (if claimType in {AbsentClaim, MissingClaim} then 5 else 4)
    ensures trace[n - 1] == IndependentlyVerified && trace[n - 2] == Investigated
  {
    StartOfWalk(claimType, trace, n);
    assert trace[n - 1] == IndependentlyVerified;
    StartOfWalk(claimType, trace, n - 1);
    assert trace[n - 2] == Investigated;
    StartOfWalk(claimType, trace, n - 2);
    if n == 4 {
      assert trace[1] == Hypothesized by {
        WalkPrefix(claimType, trace, 1, n);
        StartOfWalk(claimType, trace, 1);
      }
    }
  }

  /**
   * The table alone does not ask for evidence: any finding at INDEPENDENTLY_VERIFIED, and at no other
   * status, can be advanced to CONFIRMED, whatever is on it. ReadyMeans says when it should be.
   */
  lemma TableAsksForNoEvidence(r: Record) returns (trace: seq<Status>)
    ensures |trace| >= 2 && Walk(r.claimType, trace, |trace| - 1)
    ensures trace[|trace| - 2] == IndependentlyVerified && trace[|trace| - 1] == Confirmed
    ensures forall s :: Confirmed in Allowed(r.claimType, s) <==> s == IndependentlyVerified
  {
    trace := if IsNegative(r.claimType)
      then [Observed, Hypothesized, GroundTruthVerified, Investigated, IndependentlyVerified, Confirmed]
      else [Observed, Hypothesized, Investigated, IndependentlyVerified, Confirmed];
    assert Walk(r.claimType, trace, 0);
    assert Walk(r.claimType, trace, 1);
    assert Walk(r.claimType, trace, 2);
    assert Walk(r.claimType, trace, 3);
    assert Walk(r.claimType, trace, 4);
  }

  /** Which truth was verified matters for ABSENT claims only, and for them it must be absence. */
  lemma TruthMattersForAbsent(r: Record, truth: Truth)
    requires r.groundTruthClaim.Some?
    ensures r.claimType != AbsentClaim ==> Ready(r.(groundTruthClaim := Some(truth))) == Ready(r)
    ensures r.claimType == AbsentClaim && Ready(r) == Ok(true) ==> r.groundTruthClaim == Some(TruthAbsent)
  {}

  /** MISSING claims are not compared with the verified truth: one verified to EXIST is ready to be confirmed. */
  lemma MissingAcceptsExists() returns (r: Record)
    ensures r.claimType == MissingClaim && r.groundTruthClaim == Some(TruthExists) && Ready(r) == Ok(true)
  {
    r := Record("c", MissingClaim, IndependentlyVerified, [SAMPLE], Some(TruthExists), Some(SAMPLE), 1, "");
    ReadyMeans(r);
  }
}
