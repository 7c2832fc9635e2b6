/**
 * What Investigation's scout and verifier put on a finding, in terms of the
 * repository and the texts alone: which entity their evidence points at, what the
 * finding says afterwards, and which part of a claim is taken for its subject.
 */
module Verifications {
  import opened Basics
  import opened Evidences
  import opened Findings
  import opened ClaimText
  import opened Investigation
  import Q = QueryLayer

  // ------------------------------------------------------- the entity meant

  predicate IsNamed(es: Entities, kind: Q.EntityType, name: string, i: nat) {
    i < |es| && es[i].1.kind == kind && es[i].1.name == name
  }

  predicate IsFirstNamed(es: Entities, kind: Q.EntityType, name: string, i: nat) {
    IsNamed(es, kind, name, i) && forall j :: 0 <= j < i ==> !IsNamed(es, kind, name, j)
  }

  /** The first function of the name, or the first class if there is no such function. */
  predicate IsMeant(es: Entities, name: string, i: nat) {
    || IsFirstNamed(es, Q.Function, name, i)
    || (IsFirstNamed(es, Q.Class, name, i) && forall j :: 0 <= j < |es| ==> !IsNamed(es, Q.Function, name, j))
  }

  lemma {:induction false} ScanHead(es: Entities, n: nat, which: Q.Which, key: string) returns (i: nat)
    requires n <= |es|
    ensures Q.Scan(es, n, which, key) == [] ==> forall j :: 0 <= j < n ==> !Q.Matches(es[j].1, which, key)
    ensures Q.Scan(es, n, which, key) != [] ==>
              && i < n && Q.Matches(es[i].1, which, key) && Q.Scan(es, n, which, key)[0] == es[i].1
              && forall j :: 0 <= j < i ==> !Q.Matches(es[j].1, which, key)
  {
    i := 0;
    if n > 0 {
      i := ScanHead(es, n - 1, which, key);
      if Q.Scan(es, n - 1, which, key) == [] {
        i := n - 1;
      }
    }
  }

  lemma ScanFirst(es: Entities, isClass: bool, name: string) returns (i: nat)
    ensures var found := Q.Scan(es, |es|, Q.ByName(isClass), name);
            var kind := if isClass then Q.Class else Q.Function;
            && (found != [] ==> IsFirstNamed(es, kind, name, i) && found[0] == es[i].1)
            && (found == [] ==> forall j :: 0 <= j < |es| ==> !IsNamed(es, kind, name, j))
  {
    i := ScanHead(es, |es|, Q.ByName(isClass), name);
    forall j | 0 <= j < |es|
      ensures IsNamed(es, if isClass then Q.Class else Q.Function, name, j) <==> Q.Matches(es[j].1, Q.ByName(isClass), name)
    {}
  }

  /** Where evidence was found, and what was found there. */
  datatype Wording = Wording(source: Phrase, ofFunction: Phrase, other: Phrase)

  const TRUTH := Wording(RepositorySource, FunctionFound, ClassFound)
  const VERIFIED := Wording(VerifierSource, VerifierContradicts, VerifierContradicts)
  const SCOUTED := Wording(ScoutSymbolSearch, ScoutFoundFunction, ScoutFoundClass)
  const SCOUTED_ROUTE := Wording(ScoutRouteSearch, ScoutFoundRoute, ScoutFoundRoute)

  /** Evidence that points at an entity and says this of a name. */
  predicate PointsAt(e: Evidence, entity: Q.Entity, name: string, kind: EvidenceType, confidence: real, w: Wording) {
    && e.kind == kind && e.confidence == confidence && e.location == AtLine(entity.path, entity.line)
    && e.source == Worded(w.source, "")
    && e.observation == Worded(if entity.kind == Q.Function then w.ofFunction else w.other, name)
  }

  /** Ground truth points at the entity that is meant. */
  lemma GroundTruthPoints(es: Entities, name: string) returns (i: nat)
    ensures var g := ValidateSymbol(es, name);
            && (g.status == VerifiedPresent ==>
                  IsMeant(es, name, i) && g.evidence.Some? && PointsAt(g.evidence.value, es[i].1, name, Direct, 0.95, TRUTH))
            && (g.status != VerifiedPresent ==>
                  g.evidence == None
                  && forall j :: 0 <= j < |es| ==> !IsNamed(es, Q.Function, name, j) && !IsNamed(es, Q.Class, name, j))
  {
    var f := ScanFirst(es, false, name);
    var c := ScanFirst(es, true, name);
    i := if FunctionsNamed(es, name) != [] then f else c;
  }

  // ------------------------------------------------------------ the verifier

  /** No function and no class has the name. */
  predicate IsUndefined(es: Entities, name: string) {
    forall k :: 0 <= k < |es| ==> !IsNamed(es, Q.Function, name, k) && !IsNamed(es, Q.Class, name, k)
  }

  /** Entity `m` is the first that has the name, ignoring case, and whose own name is that of a function or class. */
  predicate IsFirstMatch(es: Entities, lower: string -> string, target: string, m: nat) {
    && m < |es| && lower(es[m].1.name) == lower(target) && !IsUndefined(es, es[m].1.name)
    && forall j :: 0 <= j < m && lower(es[j].1.name) == lower(target) ==> IsUndefined(es, es[j].1.name)
  }

  lemma FirstMatchIs(es: Entities, lower: string -> string, target: string, m: nat)
    requires FirstMatch(es, lower, target, |es|) == Some(m)
    ensures IsFirstMatch(es, lower, target, m)
  {
    FirstMatchMeaning(es, lower, target, |es|);
    forall j | 0 <= j <= m
      ensures FirstLook(es, lower, target, j) <==> lower(es[j].1.name) == lower(target) && !IsUndefined(es, es[j].1.name)
    {
      var i := GroundTruthPoints(es, es[j].1.name);
    }
  }

  /**
   * An existence claim with a verdict: the evidence points at the function or class meant by the first name that is
   * the subject, ignoring case, and the finding carries it as evidence and as ground truth, verified in the first pass.
   */
  lemma ConfirmedRecord(es: Entities, lower: string -> string, h: Hypothesis) returns (i: nat, m: nat)
    requires ExistenceTarget(h.claim).Ok? && Existence(es, lower, h).Ok?
    requires Existence(es, lower, h).value.verdict == VerdictConfirmed
    ensures var o := Existence(es, lower, h).value;
            && IsFirstMatch(es, lower, ExistenceTarget(h.claim).value, m)
            && IsMeant(es, es[m].1.name, i)
            && o.evidence.Some? && PointsAt(o.evidence.value, es[i].1, es[i].1.name, Direct, 0.95, TRUTH)
            && o.record == Record(h.claim, h.claimType, IndependentlyVerified, [o.evidence.value], Some(TruthExists),
                                  o.evidence, 1, "")
  {
    var target := ExistenceTarget(h.claim).value;
    ExistenceVerdict(es, lower, h);
    FirstMatchIffDefined(es, lower, target);
    FirstMatchMeaning(es, lower, target, |es|);
    m := FirstMatch(es, lower, target, |es|).value;
    FirstMatchIs(es, lower, target, m);
    i := GroundTruthPoints(es, es[m].1.name);
  }

  /** A refuted absence claim: the evidence points at the entity that is meant, and the finding says where it was found. */
  lemma RefutedRecord(es: Entities, h: Hypothesis) returns (i: nat)
    requires Absence(es, h).verdict == VerdictRefuted
    ensures var o, target := Absence(es, h), AbsenceTarget(h.claim);
            && IsMeant(es, target, i)
            && o.evidence.Some? && PointsAt(o.evidence.value, es[i].1, target, Direct, 0.95, VERIFIED)
            && o.record == Record(h.claim, h.claimType, IndependentlyVerified, [o.evidence.value], None, None, 1,
                                  "found at " + es[i].1.path)
  {
    var target := AbsenceTarget(h.claim);
    var f := ScanFirst(es, false, target);
    var c := ScanFirst(es, true, target);
    i := if FunctionsNamed(es, target) != [] then f else c;
  }

  /** Without a verdict the finding keeps its evidence; it was tried twice if there was something to look for. */
  lemma UnresolvedRecord(es: Entities, lower: string -> string, h: Hypothesis)
    requires Verification(es, lower, h).Ok? && Verification(es, lower, h).value.verdict == VerdictUnresolved
    ensures var o := Verification(es, lower, h).value;
            && o.evidence == None
            && o.record == Record(h.claim, h.claimType, Unresolved, h.evidence, None, None, o.record.attempts, "")
            && (h.claimType == ExistsClaim ==>
                  ExistenceTarget(h.claim).Ok?
                  && o.record.attempts == if ExistenceTarget(h.claim).value == "" then 0 else 2)
            && (h.claimType == AbsentClaim ==> o.record.attempts == if AbsenceTarget(h.claim) == "" then 1 else 2)
            && (h.claimType !in {ExistsClaim, AbsentClaim} ==> o.record.attempts == 1)
  {
    if h.claimType == ExistsClaim {
      ExistenceVerdict(es, lower, h);
      FirstMatchMeaning(es, lower, ExistenceTarget(h.claim).value, |es|);
    }
  }

  /** Claims of other types are left open whatever the repository holds. */
  lemma OtherClaimsStayOpen(es: Entities, lower: string -> string, h: Hypothesis)
    requires h.claimType !in {ExistsClaim, AbsentClaim}
    ensures Verification(es, lower, h).Ok? && Verification(es, lower, h).value.verdict == VerdictUnresolved
  {}

  // --------------------------------------------------------------- the scout

  /** A symbol is reported exactly if a function or class has the name, with evidence at the one that is meant. */
  lemma ScoutedSymbol(es: Entities, name: string, n: nat) returns (i: nat)
    ensures var h := SymbolHypothesis(es, name, n);
            && (h.None? <==> forall j :: 0 <= j < |es| && es[j].1.kind in {Q.Function, Q.Class} ==> es[j].1.name != name)
            && (h.Some? ==> IsMeant(es, name, i) && IsSymbolReport(h.value, es[i].1, name, n))
  {
    i := 0;
    NothingNamed(es, name);
    if SymbolHypothesis(es, name, n).Some? {
      i := SymbolReportIs(es, name, n);
    }
  }

  lemma SymbolReportIs(es: Entities, name: string, n: nat) returns (i: nat)
    requires SymbolHypothesis(es, name, n).Some?
    ensures IsMeant(es, name, i) && IsSymbolReport(SymbolHypothesis(es, name, n).value, es[i].1, name, n)
  {
    var f := ScanFirst(es, false, name);
    var c := ScanFirst(es, true, name);
    i := if FunctionsNamed(es, name) != [] then f else c;
    SymbolText(name);
  }

  predicate IsSymbolReport(h: Hypothesis, e: Q.Entity, name: string, n: nat) {
    && h.claim == (if e.kind == Q.Function then "Function '" else "Class '") + name + "' exists in repository"
    && h.claimType == ExistsClaim && !h.requiresGroundTruth && h.id == HypothesisId(n)
    && |h.evidence| == 1 && PointsAt(h.evidence[0], e, name, Indirect, 0.7, SCOUTED)
  }

  lemma SymbolText(name: string)
    ensures Quoted("Function ", name, " exists in repository") == "Function '" + name + "' exists in repository"
    ensures Quoted("Class ", name, " exists in repository") == "Class '" + name + "' exists in repository"
  {
    QuotedIs("Function ", name, " exists in repository");
    QuotedIs("Class ", name, " exists in repository");
    assert "Function '" == "Function " + [QUOTE] && "Class '" == "Class " + [QUOTE];
    assert "' exists in repository" == [QUOTE] + " exists in repository";
  }

  lemma QuotedIs(head: string, name: string, tail: string)
    ensures Quoted(head, name, tail) == (head + [QUOTE]) + name + ([QUOTE] + tail)
  {}

  /** Both lookups come back empty exactly if no function and no class has the name. */
  lemma NothingNamed(es: Entities, name: string)
    ensures FunctionsNamed(es, name) == [] && ClassesNamed(es, name) == [] <==>
              forall j :: 0 <= j < |es| && es[j].1.kind in {Q.Function, Q.Class} ==> es[j].1.name != name
  {
    var f := ScanFirst(es, false, name);
    var c := ScanFirst(es, true, name);
    if j :| 0 <= j < |es| && es[j].1.kind in {Q.Function, Q.Class} && es[j].1.name == name {
      assert IsNamed(es, es[j].1.kind, name, j);
    }
  }

  /** An absence is reported exactly if that is so. */
  lemma ScoutedAbsence(es: Entities, name: string, n: nat)
    ensures AbsenceHypothesis(es, name, n).Some? <==>
              forall j :: 0 <= j < |es| && es[j].1.kind in {Q.Function, Q.Class} ==> es[j].1.name != name
    ensures AbsenceHypothesis(es, name, n).Some? ==> IsAbsenceReport(AbsenceHypothesis(es, name, n).value, name, n)
  {
    NothingNamed(es, name);
    if AbsenceHypothesis(es, name, n).Some? {
      AbsenceReportIs(es, name, n);
    }
  }

  lemma AbsenceReportIs(es: Entities, name: string, n: nat)
    requires AbsenceHypothesis(es, name, n).Some?
    ensures IsAbsenceReport(AbsenceHypothesis(es, name, n).value, name, n)
  {
    AbsenceText(name);
  }

  predicate IsAbsenceReport(h: Hypothesis, name: string, n: nat) {
    && h.claim == "Symbol '" + name + "' does not exist in repository"
    && h.claimType == AbsentClaim && h.requiresGroundTruth && h.id == HypothesisId(n)
    && |h.evidence| == 1 && h.evidence[0].kind == Indirect && h.evidence[0].confidence == 0.5
  }

  lemma AbsenceText(name: string)
    ensures Quoted("Symbol ", name, " does not exist in repository") == "Symbol '" + name + "' does not exist in repository"
  {
    QuotedIs("Symbol ", name, " does not exist in repository");
    assert "Symbol '" == "Symbol " + [QUOTE];
    assert "' does not exist in repository" == [QUOTE] + " does not exist in repository";
  }

  /** What the scout says of a route: the method asked for, or "*", and the path. */
  lemma ScoutedRoute(e: Q.Entity, path: string, httpMethod: Option<string>, n: nat)
    ensures var h := RouteHypothesis(e, path, httpMethod, n);
            var asked := if httpMethod.None? || httpMethod.value == "" then "*" else httpMethod.value;
            && h.claim == "Route " + asked + " " + path + " exists"
            && h.claimType == ExistsClaim && !h.requiresGroundTruth && h.id == HypothesisId(n)
            && |h.evidence| == 1 && PointsAt(h.evidence[0], e, asked + " " + path, Indirect, 0.7, SCOUTED_ROUTE)
    ensures IsRoute(e, path, httpMethod) <==>
              e.kind == Q.Route && e.routePath == Some(path) && (httpMethod.Some? ==> e.httpMethod == httpMethod)
  {
    var asked := MethodText(httpMethod);
    assert "Route" + (" " + asked + " " + path + " exists") == ("Route" + " ") + asked + " " + path + " exists";
    assert "Route" + " " == "Route ";
  }

  // ---------------------------------------------------- the subject of a claim

  /** With a quote in the claim the subject is what stands between the first quote and the next, or the end. */
  lemma QuotedTarget(before: string, subject: string, rest: string)
    requires QUOTE !in before && QUOTE !in subject && (rest == "" || rest[0] == QUOTE)
    ensures var claim := before + [QUOTE] + (subject + rest);
            ExistenceTarget(claim) == Ok(subject) && AbsenceTarget(claim) == subject
  {
    var claim := before + [QUOTE] + (subject + rest);
    SplitAfter(before, QUOTE, subject + rest);
    assert QUOTE in claim;
    if rest == "" {
      assert subject + rest == subject;
      SplitParts(subject, QUOTE);
    } else {
      assert rest == [QUOTE] + rest[1..] && subject + rest == subject + [QUOTE] + rest[1..];
      SplitAfter(subject, QUOTE, rest[1..]);
    }
  }

  /** Without one, the subject of an existence claim is its first word. */
  lemma UnquotedTarget(gap: string, word: string, rest: string)
    requires QUOTE !in gap + (word + rest) && word != ""
    requires (forall c :: c in gap ==> IsSpace(c)) && (forall c :: c in word ==> !IsSpace(c))
    requires rest == "" || IsSpace(rest[0])
    ensures ExistenceTarget(gap + (word + rest)) == Ok(word)
    ensures AbsenceTarget(gap + (word + rest)) ==
            if 'a' <= word[0] <= 'z' || 'A' <= word[0] <= 'Z' then word else FirstAlphabetic(Words(rest))
  {
    WordsMean(gap, word, rest);
    assert (gap + (word + rest))[|gap|] == word[0];
    assert Words(gap + (word + rest))[1..] == Words(rest);
  }

  /** A claim without words has no subject; splitting white space raises. */
  lemma NoTarget(claim: string)
    requires forall c :: c in claim ==> IsSpace(c)
    ensures ExistenceTarget(claim) == if claim == "" then Ok("") else Err(IndexError)
    ensures AbsenceTarget(claim) == ""
  {
    AllSpace(claim, "");
    assert claim + "" == claim && QUOTE !in claim;
  }

  predicate BeginsWithLetter(w: string) {
    w != "" && ('a' <= w[0] <= 'z' || 'A' <= w[0] <= 'Z')
  }

  /** And the subject of an absence claim the first word that begins with a letter. */
  lemma {:induction false} FirstAlphabeticMeans(words: seq<string>) returns (k: nat)
    ensures FirstAlphabetic(words) == "" ==> forall j :: 0 <= j < |words| ==> !BeginsWithLetter(words[j])
    ensures FirstAlphabetic(words) != "" ==>
              && k < |words| && FirstAlphabetic(words) == words[k] && BeginsWithLetter(words[k])
              && forall j :: 0 <= j < k ==> !BeginsWithLetter(words[j])
  {
    k := 0;
    if words != [] && !BeginsWithLetter(words[0]) {
      k := FirstAlphabeticMeans(words[1..]);
      k := k + 1;
    }
  }
}
