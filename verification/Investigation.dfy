/**
 * backend/investigation/{ground_truth,scout,verifier}.py: a scout proposes claims
 * about a repository and a verifier inspects the repository again by itself.
 * `lower` stands for str.lower.
 */
module Investigation {
  import opened Basics
  import opened Evidences
  import opened Findings
  import opened ClaimText
  import Q = QueryLayer

  type Entities = Q.Entities

  // ------------------------------------------------------------- what is there

  predicate IsSymbol(e: Q.Entity) {
    e.kind == Q.Function || e.kind == Q.Class
  }

  /** Some function or class has exactly this name. */
  predicate Defines(es: Entities, name: string) {
    exists i :: 0 <= i < |es| && IsSymbol(es[i].1) && es[i].1.name == name
  }

  /** Some function or class has this name, ignoring case. */
  predicate DefinesLike(es: Entities, lower: string -> string, name: string) {
    exists i :: 0 <= i < |es| && IsSymbol(es[i].1) && lower(es[i].1.name) == lower(name)
  }

  function FunctionsNamed(es: Entities, name: string): seq<Q.Entity> {
    Q.Scan(es, |es|, Q.FunctionsByName, name)
  }

  function ClassesNamed(es: Entities, name: string): seq<Q.Entity> {
    Q.Scan(es, |es|, Q.ClassesByName, name)
  }

  lemma {:induction false} ScanFinds(es: Entities, n: nat, which: Q.Which, key: string)
    requires n <= |es|
    ensures Q.Scan(es, n, which, key) != [] <==> exists i :: 0 <= i < n && Q.Matches(es[i].1, which, key)
  {
    if n > 0 {
      ScanFinds(es, n - 1, which, key);
    }
  }

  lemma LookupsFind(es: Entities, name: string)
    ensures FunctionsNamed(es, name) != [] || ClassesNamed(es, name) != [] <==> Defines(es, name)
  {
    ScanFinds(es, |es|, Q.FunctionsByName, name);
    ScanFinds(es, |es|, Q.ClassesByName, name);
    if i :| 0 <= i < |es| && IsSymbol(es[i].1) && es[i].1.name == name {
      assert Q.Matches(es[i].1, if es[i].1.kind == Q.Function then Q.FunctionsByName else Q.ClassesByName, name);
    }
  }

  /** DIRECT evidence located at an entity. */
  function DirectAt(source: Phrase, e: Q.Entity, what: Phrase, subject: string): ValidEvidence {
    Evidence(Direct, Worded(source, ""), AtLine(e.path, e.line), Worded(what, subject), 0.95)
  }

  function IndirectAt(source: Phrase, e: Q.Entity, what: Phrase, subject: string): ValidEvidence {
    Evidence(Indirect, Worded(source, ""), AtLine(e.path, e.line), Worded(what, subject), 0.7)
  }

  // ------------------------------------------------------------ ground truth

  datatype TruthStatus = VerifiedPresent | VerifiedAbsent | TruthUnresolved

  datatype GroundTruth = GroundTruth(status: TruthStatus, evidence: Option<ValidEvidence>)

  /** What GroundTruthResult.__post_init__ insists on. */
  predicate Consistent(g: GroundTruth) {
    if g.status == TruthUnresolved then g.evidence == None
    else g.evidence.Some? && g.evidence.value.kind == Direct && g.evidence.value.confidence >= 0.9
  }

  /** validate_symbol_exists */
  function ValidateSymbol(es: Entities, name: string): GroundTruth {
    var functions, classes := FunctionsNamed(es, name), ClassesNamed(es, name);
    if functions != [] then
      GroundTruth(VerifiedPresent, Some(DirectAt(RepositorySource, functions[0], FunctionFound, name)))
    else if classes != [] then
      GroundTruth(VerifiedPresent, Some(DirectAt(RepositorySource, classes[0], ClassFound, name)))
    else GroundTruth(TruthUnresolved, None)
  }

  /** The validator never raises, never claims absence, and reports presence exactly for defined symbols. */
  lemma GroundTruthIsRight(es: Entities, name: string)
    ensures Consistent(ValidateSymbol(es, name))
    ensures ValidateSymbol(es, name).status != VerifiedAbsent
    ensures ValidateSymbol(es, name).status == VerifiedPresent <==> Defines(es, name)
  {
    LookupsFind(es, name);
  }

  // ------------------------------------------------------------------- scout

  datatype Hypothesis = Hypothesis(
    id: string, claim: string, claimType: ClaimType, evidence: seq<ValidEvidence>, requiresGroundTruth: bool)

  /** The scout's sentences about a symbol put its name between quotes. */
  function Quoted(head: string, name: string, tail: string): string {
    head + [QUOTE] + (name + [QUOTE] + tail)
  }

  /** investigate_symbol, when `n` is the number of the next hypothesis */
  function SymbolHypothesis(es: Entities, name: string, n: nat): Option<Hypothesis> {
    var functions, classes := FunctionsNamed(es, name), ClassesNamed(es, name);
    if functions != [] then
      Some(Hypothesis(HypothesisId(n), Quoted("Function ", name, " exists in repository"), ExistsClaim,
        [IndirectAt(ScoutSymbolSearch, functions[0], ScoutFoundFunction, name)], false))
    else if classes != [] then
      Some(Hypothesis(HypothesisId(n), Quoted("Class ", name, " exists in repository"), ExistsClaim,
        [IndirectAt(ScoutSymbolSearch, classes[0], ScoutFoundClass, name)], false))
    else None
  }

  /** investigate_absence */
  function AbsenceHypothesis(es: Entities, name: string, n: nat): Option<Hypothesis> {
    if FunctionsNamed(es, name) != [] || ClassesNamed(es, name) != [] then None
    else
      FactoriesSucceed("", name, 0, false, 0.0);
      Some(Hypothesis(HypothesisId(n), Quoted("Symbol ", name, " does not exist in repository"), AbsentClaim,
        [FromRetrievalResult(name, false).value], true))
  }

  /** The route entity matches; no method asked for matches every method. */
  predicate IsRoute(e: Q.Entity, path: string, httpMethod: Option<string>) {
    e.kind == Q.Route && e.routePath == Some(path) && (httpMethod == None || e.httpMethod == httpMethod)
  }

  /** `http_method or '*'` */
  function MethodText(httpMethod: Option<string>): string {
    if httpMethod.Some? && httpMethod.value != "" then httpMethod.value else "*"
  }

  function RouteClaim(path: string, httpMethod: Option<string>): string {
    "Route" + (" " + MethodText(httpMethod) + " " + path + " exists")
  }

  function RouteHypothesis(e: Q.Entity, path: string, httpMethod: Option<string>, n: nat): Hypothesis {
    Hypothesis(HypothesisId(n), RouteClaim(path, httpMethod), ExistsClaim,
      [IndirectAt(ScoutRouteSearch, e, ScoutFoundRoute, MethodText(httpMethod) + " " + path)], false)
  }

  class ScoutAgent {
    const query: Q.QueryLayer
    var hypotheses: nat

    constructor (query: Q.QueryLayer)
      ensures this.query == query && hypotheses == 0
    {
      this.query, hypotheses := query, 0;
    }

    method NextId() returns (id: string)
      modifies this
      ensures hypotheses == old(hypotheses) + 1 && id == HypothesisId(hypotheses)
    {
      hypotheses := hypotheses + 1;
      id := HypothesisId(hypotheses);
    }

    method InvestigateSymbol(name: string) returns (h: Option<Hypothesis>)
      requires query.Valid() && query as object != this
      modifies this
      ensures h == SymbolHypothesis(query.entities, name, old(hypotheses) + 1)
      ensures hypotheses == old(hypotheses) + if h.Some? then 1 else 0
    {
      var functions := query.Find(Q.FunctionsByName, name);
      if functions != [] {
        var evidence := IndirectAt(ScoutSymbolSearch, functions[0], ScoutFoundFunction, name);
        var id := NextId();
        return Some(Hypothesis(id, Quoted("Function ", name, " exists in repository"), ExistsClaim, [evidence], false));
      }
      var classes := query.Find(Q.ClassesByName, name);
      if classes != [] {
        var evidence := IndirectAt(ScoutSymbolSearch, classes[0], ScoutFoundClass, name);
        var id := NextId();
        return Some(Hypothesis(id, Quoted("Class ", name, " exists in repository"), ExistsClaim, [evidence], false));
      }
      return None;
    }

    method InvestigateAbsence(name: string) returns (h: Option<Hypothesis>)
      requires query.Valid() && query as object != this
      modifies this
      ensures h == AbsenceHypothesis(query.entities, name, old(hypotheses) + 1)
      ensures hypotheses == old(hypotheses) + if h.Some? then 1 else 0
    {
      var functions := query.Find(Q.FunctionsByName, name);
      var classes := query.Find(Q.ClassesByName, name);
      if functions != [] || classes != [] {
        return None;
      }
      FactoriesSucceed("", name, 0, false, 0.0);
      var id := NextId();
      return Some(Hypothesis(id, Quoted("Symbol ", name, " does not exist in repository"), AbsentClaim,
        [FromRetrievalResult(name, false).value], true));
    }

    /** investigate_route: the first route entity that matches, if any. */
    method InvestigateRoute(path: string, httpMethod: Option<string>) returns (h: Option<Hypothesis>)
      requires query.Valid() && query as object != this
      modifies this
      ensures h == None ==> forall i :: 0 <= i < |query.entities| ==> !IsRoute(query.entities[i].1, path, httpMethod)
      ensures h.Some? ==>
        exists i :: 0 <= i < |query.entities|
          && IsRoute(query.entities[i].1, path, httpMethod)
          && (forall j :: 0 <= j < i ==> !IsRoute(query.entities[j].1, path, httpMethod))
          && h.value == RouteHypothesis(query.entities[i].1, path, httpMethod, old(hypotheses) + 1)
      ensures hypotheses == old(hypotheses) + if h.Some? then 1 else 0
    {
      for i := 0 to |query.entities|
        invariant hypotheses == old(hypotheses)
        invariant forall j :: 0 <= j < i ==> !IsRoute(query.entities[j].1, path, httpMethod)
      {
        var e := query.entities[i].1;
        if IsRoute(e, path, httpMethod) {
          var evidence := IndirectAt(ScoutRouteSearch, e, ScoutFoundRoute, MethodText(httpMethod) + " " + path);
          var id := NextId();
          h := Some(Hypothesis(id, RouteClaim(path, httpMethod), ExistsClaim, [evidence], false));
          assert IsRoute(query.entities[i].1, path, httpMethod);
          return;
        }
      }
      return None;
    }
  }

  // ---------------------------------------------------------------- verifier

  datatype Verdict = VerdictConfirmed | VerdictRefuted | VerdictUnresolved

  datatype Outcome = Outcome(record: Record, verdict: Verdict, evidence: Option<ValidEvidence>)

  /**
   * The symbol an existence claim is taken to be about, "" when there is none. A claim of
   * white space only makes `claim.split()[0]` raise.
   */
  function ExistenceTarget(claim: string): Result<string, Failure> {
    if QUOTE in claim then
      JoinSplit(claim, QUOTE);
      Ok(Split(claim, QUOTE)[1])
    else if claim == "" then Ok("")
    else if Words(claim) == [] then Err(IndexError)
    else Ok(Words(claim)[0])
  }

  predicate IsAlpha(c: char) {
    'a' <= c <= 'z' || 'A' <= c <= 'Z'
  }

  function FirstAlphabetic(words: seq<string>): string {
    if words == [] then ""
    else if words[0] != "" && IsAlpha(words[0][0]) then words[0]
    else FirstAlphabetic(words[1..])
  }

  function AbsenceTarget(claim: string): string {
    if QUOTE in claim then
      JoinSplit(claim, QUOTE);
      Split(claim, QUOTE)[1]
    else FirstAlphabetic(Words(claim))
  }

  /** The entity passes the verifier's first look: same name ignoring case, and ground truth for its own name. */
  predicate FirstLook(es: Entities, lower: string -> string, target: string, i: nat)
    requires i < |es|
  {
    lower(es[i].1.name) == lower(target) && ValidateSymbol(es, es[i].1.name).status == VerifiedPresent
  }

  /** The first of the first `n` entities that passes. */
  function FirstMatch(es: Entities, lower: string -> string, target: string, n: nat): Option<nat>
    requires n <= |es|
  {
    if n == 0 then None
    else if FirstMatch(es, lower, target, n - 1).Some? then FirstMatch(es, lower, target, n - 1)
    else if FirstLook(es, lower, target, n - 1) then Some(n - 1)
    else None
  }

  lemma {:induction false} FirstMatchMeaning(es: Entities, lower: string -> string, target: string, n: nat)
    requires n <= |es|
    ensures match FirstMatch(es, lower, target, n)
            case None => forall i :: 0 <= i < n ==> !FirstLook(es, lower, target, i)
            case Some(i) => i < n && FirstLook(es, lower, target, i) && forall j :: 0 <= j < i ==> !FirstLook(es, lower, target, j)
  {
    if n > 0 {
      FirstMatchMeaning(es, lower, target, n - 1);
    }
  }

  function NewRecord(h: Hypothesis): Record {
    Record(h.claim, h.claimType, Observed, h.evidence, None, None, 0, "")
  }

  function ConfirmedOutcome(r: Record, evidence: ValidEvidence, attempts: nat): Outcome {
    Outcome(r.(evidence := [evidence], groundTruthEvidence := Some(evidence), groundTruthClaim := Some(TruthExists),
               status := IndependentlyVerified, attempts := attempts), VerdictConfirmed, Some(evidence))
  }

  function UnresolvedOutcome(r: Record, attempts: nat): Outcome {
    Outcome(r.(status := Unresolved, attempts := attempts), VerdictUnresolved, None)
  }

  /** The second, exact look of _verify_existence. */
  function SecondLook(es: Entities, r: Record, target: string): Outcome {
    var functions, classes := FunctionsNamed(es, target), ClassesNamed(es, target);
    if functions != [] then
      ConfirmedOutcome(r, DirectAt(VerifierSource, functions[0], VerifierFoundFunction, target), 2)
    else if classes != [] then
      ConfirmedOutcome(r, DirectAt(VerifierSource, classes[0], VerifierFoundClass, target), 2)
    else UnresolvedOutcome(r, 2)
  }

  /** _verify_existence */
  function Existence(es: Entities, lower: string -> string, h: Hypothesis): Result<Outcome, Failure> {
    match ExistenceTarget(h.claim)
    case Err(e) => Err(e)
    case Ok(target) =>
      if target == "" then Ok(UnresolvedOutcome(NewRecord(h), 0))
      else
        FirstMatchMeaning(es, lower, target, |es|);
        match FirstMatch(es, lower, target, |es|)
        case Some(i) =>
          GroundTruthIsRight(es, es[i].1.name);
          Ok(ConfirmedOutcome(NewRecord(h), ValidateSymbol(es, es[i].1.name).evidence.value, 1))
        case None => Ok(SecondLook(es, NewRecord(h), target))
  }

  function RefutedOutcome(r: Record, evidence: ValidEvidence, path: string): Outcome {
    Outcome(r.(status := IndependentlyVerified, evidence := [evidence], contradiction := "found at " + path, attempts := 1),
            VerdictRefuted, Some(evidence))
  }

  /** _verify_absence */
  function Absence(es: Entities, h: Hypothesis): Outcome {
    var target := AbsenceTarget(h.claim);
    if target == "" then UnresolvedOutcome(NewRecord(h), 1)
    else
      var functions, classes := FunctionsNamed(es, target), ClassesNamed(es, target);
      if functions != [] then
        RefutedOutcome(NewRecord(h), DirectAt(VerifierSource, functions[0], VerifierContradicts, target), functions[0].path)
      else if classes != [] then
        RefutedOutcome(NewRecord(h), DirectAt(VerifierSource, classes[0], VerifierContradicts, target), classes[0].path)
      else UnresolvedOutcome(NewRecord(h), 2)
  }

  /** verify */
  function Verification(es: Entities, lower: string -> string, h: Hypothesis): Result<Outcome, Failure> {
    match h.claimType
    case ExistsClaim => Existence(es, lower, h)
    case AbsentClaim => Ok(Absence(es, h))
    case _ => Ok(UnresolvedOutcome(NewRecord(h), 1))
  }

  datatype Verified = Verified(finding: Finding, verdict: Verdict, evidence: Option<ValidEvidence>)

  class VerificationAgent {
    const query: Q.QueryLayer
    const lower: string -> string

    constructor (query: Q.QueryLayer, lower: string -> string)
      ensures this.query == query && this.lower == lower
    {
      this.query, this.lower := query, lower;
    }

    method ValidateSymbolExists(name: string) returns (g: GroundTruth)
      requires query.Valid()
      ensures g == ValidateSymbol(query.entities, name)
    {
      var functions := query.Find(Q.FunctionsByName, name);
      if functions != [] {
        return GroundTruth(VerifiedPresent, Some(DirectAt(RepositorySource, functions[0], FunctionFound, name)));
      }
      var classes := query.Find(Q.ClassesByName, name);
      if classes != [] {
        return GroundTruth(VerifiedPresent, Some(DirectAt(RepositorySource, classes[0], ClassFound, name)));
      }
      return GroundTruth(TruthUnresolved, None);
    }

    /** The finding is written field by field, as the three confirming branches do. */
    method Confirm(finding: Finding, evidence: ValidEvidence, attempts: nat) returns (v: Verified)
      modifies finding
      ensures v == Verified(finding, VerdictConfirmed, Some(evidence))
      ensures finding.Now() == ConfirmedOutcome(old(finding.Now()), evidence, attempts).record
    {
      finding.evidence := [evidence];
      finding.groundTruthEvidence := Some(evidence);
      finding.groundTruthClaim := Some(TruthExists);
      finding.status := IndependentlyVerified;
      finding.attempts := attempts;
      v := Verified(finding, VerdictConfirmed, Some(evidence));
    }

    method Refute(finding: Finding, evidence: ValidEvidence, path: string) returns (v: Verified)
      modifies finding
      ensures v == Verified(finding, VerdictRefuted, Some(evidence))
      ensures finding.Now() == RefutedOutcome(old(finding.Now()), evidence, path).record
    {
      finding.status := IndependentlyVerified;
      finding.evidence := [evidence];
      finding.contradiction := "found at " + path;
      finding.attempts := 1;
      v := Verified(finding, VerdictRefuted, Some(evidence));
    }

    method LeaveUnresolved(finding: Finding, attempts: nat) returns (v: Verified)
      modifies finding
      ensures v == Verified(finding, VerdictUnresolved, None)
      ensures finding.Now() == UnresolvedOutcome(old(finding.Now()), attempts).record
    {
      finding.status := Unresolved;
      finding.attempts := attempts;
      v := Verified(finding, VerdictUnresolved, None);
    }

    /** The loop over all entities. */
    method FirstPass(target: string) returns (evidence: Option<ValidEvidence>)
      requires query.Valid()
      ensures match FirstMatch(query.entities, lower, target, |query.entities|)
              case Some(i) => i < |query.entities| && evidence.Some?
                              && evidence == ValidateSymbol(query.entities, query.entities[i].1.name).evidence
              case None => evidence == None
    {
      var es := query.entities;
      for i := 0 to |es|
        invariant FirstMatch(es, lower, target, i) == None
      {
        FirstMatchNext(es, lower, target, i);
        if lower(es[i].1.name) == lower(target) {
          var g := ValidateSymbolExists(es[i].1.name);
          if g.status == VerifiedPresent {
            FirstMatchStays(es, lower, target, i + 1, |es|);
            return g.evidence;
          }
        }
      }
      return None;
    }

    method VerifyExistence(finding: Finding, h: Hypothesis) returns (v: Result<Verified, Failure>)
      requires query.Valid() && finding.Now() == NewRecord(h)
      modifies finding
      ensures Reports(v, finding, finding.Now(), Existence(query.entities, lower, h))
    {
      var target;
      if QUOTE in finding.claim {
        JoinSplit(finding.claim, QUOTE);
        target := Split(finding.claim, QUOTE)[1];
      } else if h.claim == "" {
        target := "";
      } else if Words(h.claim) == [] {
        return Err(IndexError);
      } else {
        target := Words(h.claim)[0];
      }
      var verified;
      if target == "" {
        verified := LeaveUnresolved(finding, 0);
        return Ok(verified);
      }
      FirstMatchMeaning(query.entities, lower, target, |query.entities|);
      var first := FirstPass(target);
      if first.Some? {
        verified := Confirm(finding, first.value, 1);
        return Ok(verified);
      }
      verified := SecondPass(finding, target);
      return Ok(verified);
    }

    method SecondPass(finding: Finding, target: string) returns (v: Verified)
      requires query.Valid()
      modifies finding
      ensures var o := SecondLook(query.entities, old(finding.Now()), target);
              v == Verified(finding, o.verdict, o.evidence) && finding.Now() == o.record
    {
      var functions := query.Find(Q.FunctionsByName, target);
      if functions != [] {
        v := Confirm(finding,
          DirectAt(VerifierSource, functions[0], VerifierFoundFunction, target), 2);
        return;
      }
      var classes := query.Find(Q.ClassesByName, target);
      if classes != [] {
        v := Confirm(finding,
          DirectAt(VerifierSource, classes[0], VerifierFoundClass, target), 2);
        return;
      }
      v := LeaveUnresolved(finding, 2);
    }

    method VerifyAbsence(finding: Finding, h: Hypothesis) returns (v: Verified)
      requires query.Valid() && finding.Now() == NewRecord(h)
      modifies finding
      ensures Reports(Ok(v), finding, finding.Now(), Ok(Absence(query.entities, h)))
    {
      var target;
      if QUOTE in finding.claim {
        JoinSplit(finding.claim, QUOTE);
        target := Split(finding.claim, QUOTE)[1];
      } else {
        target := FirstAlphabetic(Words(finding.claim));
      }
      if target == "" {
        v := LeaveUnresolved(finding, 1);
        return;
      }
      var functions := query.Find(Q.FunctionsByName, target);
      if functions != [] {
        v := Refute(finding, DirectAt(VerifierSource, functions[0], VerifierContradicts, target), functions[0].path);
        return;
      }
      var classes := query.Find(Q.ClassesByName, target);
      if classes != [] {
        v := Refute(finding, DirectAt(VerifierSource, classes[0], VerifierContradicts, target), classes[0].path);
        return;
      }
      v := LeaveUnresolved(finding, 2);
    }

    /** verify: the result carries a new finding. */
    method Verify(h: Hypothesis) returns (v: Result<Verified, Failure>)
      requires query.Valid()
      ensures v.Ok? ==> fresh(v.value.finding)
      ensures match v
              case Ok(w) => Verification(query.entities, lower, h) == Ok(Outcome(w.finding.Now(), w.verdict, w.evidence))
              case Err(e) => Verification(query.entities, lower, h) == Err(e)
    {
      var finding := new Finding(h.claim, h.claimType, h.evidence);
      match h.claimType
      case ExistsClaim =>
        v := VerifyExistence(finding, h);
      case AbsentClaim =>
        var w := VerifyAbsence(finding, h);
        v := Ok(w);
      case _ =>
        var w := LeaveUnresolved(finding, 1);
        v := Ok(w);
    }
  }

  /** The returned result says what the specification says. */
  predicate Reports(v: Result<Verified, Failure>, finding: Finding, now: Record, outcome: Result<Outcome, Failure>) {
    match v
    case Ok(w) => w.finding == finding && outcome == Ok(Outcome(now, w.verdict, w.evidence))
    case Err(e) => outcome == Err(e)
  }

  lemma FirstMatchNext(es: Entities, lower: string -> string, target: string, i: nat)
    requires i < |es| && FirstMatch(es, lower, target, i) == None
    ensures FirstMatch(es, lower, target, i + 1) == if FirstLook(es, lower, target, i) then Some(i) else None
  {}

  lemma {:induction false} FirstMatchStays(es: Entities, lower: string -> string, target: string, k: nat, n: nat)
    requires k <= n <= |es| && FirstMatch(es, lower, target, k).Some?
    ensures FirstMatch(es, lower, target, n) == FirstMatch(es, lower, target, k)
  {
    if k < n {
      FirstMatchStays(es, lower, target, k, n - 1);
    }
  }

  // ------------------------------------------------------------ the verdicts

  /** The first look succeeds exactly when some function or class has the name, ignoring case. */
  lemma FirstMatchIffDefined(es: Entities, lower: string -> string, target: string)
    ensures FirstMatch(es, lower, target, |es|).Some? <==> DefinesLike(es, lower, target)
  {
    FirstMatchMeaning(es, lower, target, |es|);
    if FirstMatch(es, lower, target, |es|).Some? {
      var i := FirstMatch(es, lower, target, |es|).value;
      GroundTruthIsRight(es, es[i].1.name);
    }
    if i :| 0 <= i < |es| && IsSymbol(es[i].1) && lower(es[i].1.name) == lower(target) {
      GroundTruthIsRight(es, es[i].1.name);
      assert FirstLook(es, lower, target, i);
    }
  }

  /**
   * An existence claim is CONFIRMED exactly when its subject is defined up to case, always in the
   * first pass, and is never REFUTED: the second pass only ever leaves it UNRESOLVED.
   */
  lemma ExistenceVerdict(es: Entities, lower: string -> string, h: Hypothesis)
    requires ExistenceTarget(h.claim).Ok?
    ensures var target := ExistenceTarget(h.claim).value;
            var o := Existence(es, lower, h);
            && o.Ok?
            && o.value.verdict == (if target != "" && DefinesLike(es, lower, target) then VerdictConfirmed else VerdictUnresolved)
            && (o.value.verdict == VerdictConfirmed ==> o.value.record.attempts == 1)
  {
    var target := ExistenceTarget(h.claim).value;
    FirstMatchIffDefined(es, lower, target);
    LookupsFind(es, target);
    if Defines(es, target) {
      var i :| 0 <= i < |es| && IsSymbol(es[i].1) && es[i].1.name == target;
      assert DefinesLike(es, lower, target);
    }
  }

  /** Only a non-empty claim of nothing but white space makes verification raise. */
  lemma VerificationRaises(es: Entities, lower: string -> string, h: Hypothesis)
    ensures Verification(es, lower, h).Err? <==> h.claimType == ExistsClaim && h.claim != "" && Blank(h.claim)
  {
    NoWords(h.claim);
    if Blank(h.claim) {
      assert !IsSpace(QUOTE);
      assert QUOTE !in h.claim;
    }
  }

  /** An absence claim is REFUTED exactly when its subject is defined, and never CONFIRMED. */
  lemma AbsenceVerdict(es: Entities, h: Hypothesis)
    ensures var target := AbsenceTarget(h.claim);
            Absence(es, h).verdict ==
            if target != "" && Defines(es, target) then VerdictRefuted else VerdictUnresolved
  {
    LookupsFind(es, AbsenceTarget(h.claim));
  }

  /**
   * End to end: whatever the hypothesis, the verified finding passes is_ready_for_confirmation
   * exactly when the verdict is CONFIRMED; the check never raises; and the finding may be advanced
   * to CONFIRMED or REFUTED by the table exactly when there is a verdict.
   */
  lemma VerdictsAndReadiness(es: Entities, lower: string -> string, h: Hypothesis)
    requires Verification(es, lower, h).Ok?
    ensures Accords(h, Verification(es, lower, h).value)
  {
    if h.claimType == ExistsClaim {
      ExistenceAccords(es, lower, h);
    } else if h.claimType == AbsentClaim {
      AbsenceAccords(es, h);
    }
  }

  predicate Accords(h: Hypothesis, o: Outcome) {
    && Ready(o.record) == Ok(o.verdict == VerdictConfirmed)
    && o.record.claimType == h.claimType
    && (o.verdict == VerdictConfirmed ==> h.claimType == ExistsClaim)
    && (o.verdict == VerdictRefuted ==> h.claimType == AbsentClaim)
    && ({Confirmed, Refuted} <= Allowed(o.record.claimType, o.record.status) <==> o.verdict != VerdictUnresolved)
    && (o.evidence.Some? <==> o.verdict != VerdictUnresolved)
    && (o.evidence.Some? ==> o.record.evidence == [o.evidence.value] && SufficientForConfirmation(o.evidence.value))
  }

  lemma ConfirmedAccords(h: Hypothesis, evidence: ValidEvidence, attempts: nat)
    requires h.claimType == ExistsClaim && SufficientForConfirmation(evidence) && attempts >= 1
    ensures Accords(h, ConfirmedOutcome(NewRecord(h), evidence, attempts))
  {
    var r := ConfirmedOutcome(NewRecord(h), evidence, attempts).record;
    assert r.evidence[0] in r.evidence;
  }

  lemma UnresolvedAccords(h: Hypothesis, attempts: nat)
    ensures Accords(h, UnresolvedOutcome(NewRecord(h), attempts))
  {}

  lemma ExistenceAccords(es: Entities, lower: string -> string, h: Hypothesis)
    requires h.claimType == ExistsClaim && ExistenceTarget(h.claim).Ok?
    ensures Existence(es, lower, h).Ok? && Accords(h, Existence(es, lower, h).value)
  {
    var target := ExistenceTarget(h.claim).value;
    UnresolvedAccords(h, 0);
    UnresolvedAccords(h, 2);
    ExistenceVerdict(es, lower, h);
    FirstMatchIffDefined(es, lower, target);
    FirstMatchMeaning(es, lower, target, |es|);
    var first := FirstMatch(es, lower, target, |es|);
    if first.Some? {
      GroundTruthIsRight(es, es[first.value].1.name);
      ConfirmedAccords(h, ValidateSymbol(es, es[first.value].1.name).evidence.value, 1);
    }
  }

  lemma AbsenceAccords(es: Entities, h: Hypothesis)
    requires h.claimType == AbsentClaim
    ensures Accords(h, Absence(es, h))
  {
    AbsenceVerdict(es, h);
    var o := Absence(es, h);
    assert o.verdict == VerdictRefuted ==> o.record.contradiction[0] == 'f';
  }

  // --------------------------------------------------- scout, then verifier

  lemma QuotedSubject(head: string, name: string, tail: string)
    requires QUOTE !in head
    ensures var claim := Quoted(head, name, tail);
            QUOTE in claim && |Split(claim, QUOTE)| >= 2 && Split(claim, QUOTE)[1] == BeforeQuote(name)
  {
    var rest := name + [QUOTE] + tail;
    SplitAfter(head, QUOTE, rest);
    SplitHead(name, QUOTE, tail);
    JoinSplit(Quoted(head, name, tail), QUOTE);
  }

  lemma ScoutedTarget(es: Entities, name: string, n: nat)
    requires SymbolHypothesis(es, name, n).Some?
    ensures ExistenceTarget(SymbolHypothesis(es, name, n).value.claim) == Ok(BeforeQuote(name))
  {
    QuotedSubject("Function ", name, " exists in repository");
    QuotedSubject("Class ", name, " exists in repository");
  }

  /** What the verifier says of a symbol the scout reported, for any name. */
  lemma ScoutedSymbolVerdict(es: Entities, lower: string -> string, name: string, n: nat)
    requires SymbolHypothesis(es, name, n).Some?
    ensures var v := Verification(es, lower, SymbolHypothesis(es, name, n).value);
            && v.Ok?
            && v.value.verdict ==
               if BeforeQuote(name) != "" && DefinesLike(es, lower, BeforeQuote(name)) then VerdictConfirmed else VerdictUnresolved
  {
    ScoutedTarget(es, name, n);
    ExistenceVerdict(es, lower, SymbolHypothesis(es, name, n).value);
  }

  /** A reported symbol with a non-empty, quote-free name is always confirmed, ready, and may be advanced. */
  lemma ScoutedSymbolIsConfirmed(es: Entities, lower: string -> string, name: string, n: nat)
    requires SymbolHypothesis(es, name, n).Some? && name != "" && QUOTE !in name
    ensures var v := Verification(es, lower, SymbolHypothesis(es, name, n).value);
            && v.Ok? && v.value.verdict == VerdictConfirmed
            && Ready(v.value.record) == Ok(true)
            && Confirmed in Allowed(v.value.record.claimType, v.value.record.status)
  {
    ScoutedSymbolVerdict(es, lower, name, n);
    BeforeQuoteMeaning(name);
    LookupsFind(es, name);
    var i :| 0 <= i < |es| && IsSymbol(es[i].1) && es[i].1.name == name;
    assert DefinesLike(es, lower, name);
    VerdictsAndReadiness(es, lower, SymbolHypothesis(es, name, n).value);
  }

  ghost predicate AlwaysConfirmed(lower: string -> string, name: string) {
    forall es: Entities, n: nat ::
      SymbolHypothesis(es, name, n).Some? ==>
        var v := Verification(es, lower, SymbolHypothesis(es, name, n).value);
        v.Ok? && v.value.verdict == VerdictConfirmed
  }

  /** Non-empty and quote-free is exactly what it takes, since lower-casing keeps quotes apart from letters. */
  lemma AlwaysConfirmedIff(lower: string -> string, name: string)
    requires forall s: string :: QUOTE in lower(s) <==> QUOTE in s
    ensures AlwaysConfirmed(lower, name) <==> name != "" && QUOTE !in name
  {
    if name != "" && QUOTE !in name {
      forall es: Entities, n: nat | SymbolHypothesis(es, name, n).Some?
        ensures var v := Verification(es, lower, SymbolHypothesis(es, name, n).value);
                v.Ok? && v.value.verdict == VerdictConfirmed
      {
        ScoutedSymbolIsConfirmed(es, lower, name, n);
      }
    } else {
      var es: Entities := [("id", Q.Entity(Q.Function, name, "", "", "", 0, None, None))];
      LookupsFind(es, name);
      assert es[0].1.name == name;
      assert SymbolHypothesis(es, name, 0).Some?;
      ScoutedSymbolVerdict(es, lower, name, 0);
      BeforeQuoteMeaning(name);
      assert !(BeforeQuote(name) != "" && DefinesLike(es, lower, BeforeQuote(name)));
    }
  }

  /**
   * A reported absence is REFUTED only through a quote in the name, when the part before it
   * happens to be defined; otherwise the verifier agrees with nothing and leaves it open.
   */
  lemma ScoutedAbsenceVerdict(es: Entities, lower: string -> string, name: string, n: nat)
    requires AbsenceHypothesis(es, name, n).Some?
    ensures var v := Verification(es, lower, AbsenceHypothesis(es, name, n).value);
            && v.Ok?
            && v.value.verdict ==
               if QUOTE in name && BeforeQuote(name) != "" && Defines(es, BeforeQuote(name)) then VerdictRefuted else VerdictUnresolved
  {
    var h := AbsenceHypothesis(es, name, n).value;
    QuotedSubject("Symbol ", name, " does not exist in repository");
    AbsenceVerdict(es, h);
    LookupsFind(es, name);
    BeforeQuoteMeaning(name);
  }

  /** The subject of a route claim: what stands between its first two quotes, and its first word if it has none. */
  lemma RouteTarget(path: string, httpMethod: Option<string>)
    ensures var claim := RouteClaim(path, httpMethod);
            && (QUOTE !in claim ==> ExistenceTarget(claim) == Ok("Route"))
            && (QUOTE in claim ==> |Split(claim, QUOTE)| >= 2 && ExistenceTarget(claim) == Ok(Split(claim, QUOTE)[1]))
  {
    var claim := RouteClaim(path, httpMethod);
    SplitParts(claim, QUOTE);
    if QUOTE !in claim {
      FirstWord("Route", " " + MethodText(httpMethod) + " " + path + " exists");
    }
  }

  /** It has quotes exactly if the method or the path does. */
  lemma RouteQuotes(path: string, httpMethod: Option<string>)
    ensures QUOTE in RouteClaim(path, httpMethod) <==> QUOTE in path || QUOTE in MethodText(httpMethod)
  {
    assert QUOTE !in "Route" && QUOTE !in " " && QUOTE !in " exists";
  }

  /**
   * A route that exists is looked up by the subject of its claim: it is confirmed exactly when the
   * repository defines a function or class of that name, which without quotes is "Route".
   */
  lemma ScoutedRouteVerdict(es: Entities, lower: string -> string, e: Q.Entity, path: string, httpMethod: Option<string>, n: nat)
    ensures var claim := RouteClaim(path, httpMethod);
            var target := if QUOTE in claim && |Split(claim, QUOTE)| >= 2 then Split(claim, QUOTE)[1] else "Route";
            var v := Verification(es, lower, RouteHypothesis(e, path, httpMethod, n));
            && v.Ok?
            && v.value.verdict == if target != "" && DefinesLike(es, lower, target) then VerdictConfirmed else VerdictUnresolved
  {
    RouteTarget(path, httpMethod);
    ExistenceVerdict(es, lower, RouteHypothesis(e, path, httpMethod, n));
  }
}
