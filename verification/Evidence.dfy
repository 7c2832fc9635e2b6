/**
 * backend/investigation/evidence.py: a piece of evidence and the checks its
 * constructor makes. Confidence is a real number.
 */
module Evidences {
  import opened Basics

  datatype EvidenceType = Direct | Indirect | Inferred | Unverified

  /** The program's own wordings, each around one subject. */
  datatype Phrase =
    | SourceCode | SymbolFound | ParserOutput | ParserExtracted | ParserDidNotExtract
    | SearchApi | SearchEndpoint | SearchReturned | TestFixture | AgentReport | AgentLabel
    | RepositorySource | FunctionFound | ClassFound
    | ScoutSymbolSearch | ScoutFoundFunction | ScoutFoundClass | ScoutRouteSearch | ScoutFoundRoute
    | VerifierSource | VerifierFoundFunction | VerifierFoundClass | VerifierContradicts

  /** No wording is blank, nor is "path:line"; a text from elsewhere may be. */
  datatype Text = Worded(phrase: Phrase, subject: string) | AtLine(path: string, line: nat) | Given(text: string)

  datatype Evidence = Evidence(kind: EvidenceType, source: Text, location: Text, observation: Text, confidence: real)

  predicate Blank(s: string) {
    forall c :: c in s ==> IsSpace(c)
  }

  /** `not text or not text.strip()` */
  predicate BlankText(t: Text) {
    t.Given? && Blank(t.text)
  }

  /** __post_init__ raises nothing. */
  predicate Acceptable(e: Evidence) {
    && !BlankText(e.source) && !BlankText(e.location) && !BlankText(e.observation)
    && 0.0 <= e.confidence <= 1.0
    && match e.kind
       case Direct => e.confidence >= 0.9
       case Indirect => 0.5 <= e.confidence < 0.9
       case Inferred => 0.3 <= e.confidence < 0.7
       case Unverified => e.confidence <= 0.5
  }

  const SAMPLE := Evidence(Direct, Worded(ParserOutput, ""), AtLine("", 1), Worded(ParserExtracted, ""), 1.0)

  /** Evidence objects that exist: construction has succeeded. */
  type ValidEvidence = e: Evidence | Acceptable(e) witness SAMPLE

  function Create(e: Evidence): Option<ValidEvidence> {
    if Acceptable(e) then Some(e) else None
  }

  function FromSourceCode(path: string, symbol: string, line: nat): Option<ValidEvidence> {
    Create(Evidence(Direct, Worded(SourceCode, ""), if line != 0 then AtLine(path, line) else Given(path),
                    Worded(SymbolFound, symbol), 0.95))
  }

  function FromParserOutput(path: string, extracted: bool): Option<ValidEvidence> {
    Create(Evidence(Direct, Worded(ParserOutput, ""), Given(path),
                    Worded(if extracted then ParserExtracted else ParserDidNotExtract, ""), 1.0))
  }

  function FromRetrievalResult(query: string, found: bool): Option<ValidEvidence> {
    Create(Evidence(Indirect, Worded(SearchApi, ""), Worded(SearchEndpoint, ""), Worded(SearchReturned, query),
                    if found then 0.7 else 0.5))
  }

  function FromTestFixture(name: string, claim: string, unverified: bool): Option<ValidEvidence> {
    Create(Evidence(Unverified, Worded(TestFixture, ""), Given(name), Given(claim), if unverified then 0.3 else 0.5))
  }

  function FromAgentReport(agent: string, finding: string, hint: real): Option<ValidEvidence> {
    Create(Evidence(Unverified, Worded(AgentReport, ""), Worded(AgentLabel, agent), Given(finding), hint))
  }

  predicate SufficientForConfirmation(e: Evidence) {
    e.kind == Direct && e.confidence >= 0.9
  }

  /** Exactly when each factory succeeds. */
  lemma FactoriesSucceed(path: string, text: string, line: nat, flag: bool, hint: real)
    ensures FromSourceCode(path, text, line).Some? <==> line != 0 || !Blank(path)
    ensures FromParserOutput(path, flag).Some? <==> !Blank(path)
    ensures FromRetrievalResult(text, flag).Some?
    ensures FromTestFixture(path, text, flag).Some? <==> !Blank(path) && !Blank(text)
    ensures FromAgentReport(path, text, hint).Some? <==> !Blank(text) && 0.0 <= hint <= 0.5
  {}

  /**
   * Only source code and parser output can confirm anything: what a search returned,
   * a fixture or another agent never does, whatever the confidence.
   */
  lemma WhatSuffices(path: string, text: string, line: nat, flag: bool, hint: real)
    ensures var e := FromSourceCode(path, text, line); e.Some? ==> SufficientForConfirmation(e.value)
    ensures var e := FromParserOutput(path, flag); e.Some? ==> SufficientForConfirmation(e.value)
    ensures var e := FromRetrievalResult(text, flag); e.Some? && !SufficientForConfirmation(e.value)
    ensures var e := FromTestFixture(path, text, flag); e.Some? ==> !SufficientForConfirmation(e.value)
    ensures var e := FromAgentReport(path, text, hint); e.Some? ==> !SufficientForConfirmation(e.value)
  {}

  /** Evidence of any kind but DIRECT never reaches 0.9, so the confidence check can only pass for DIRECT. */
  lemma ConfidenceSeparates(e: ValidEvidence)
    ensures e.kind == Direct <==> e.confidence >= 0.9
    ensures SufficientForConfirmation(e) <==> e.kind == Direct
  {}

  /** The kinds that a confidence allows, from low to high; none is negative or above one. */
  function KindsFor(confidence: real): set<EvidenceType> {
    if confidence < 0.0 || confidence > 1.0 then {}
    else if confidence < 0.3 then {Unverified}
    else if confidence < 0.5 then {Inferred, Unverified}
    else if confidence == 0.5 then {Indirect, Inferred, Unverified}
    else if confidence < 0.7 then {Indirect, Inferred}
    else if confidence < 0.9 then {Indirect}
    else {Direct}
  }

  /** Exactly which evidence can be constructed: the confidence allows its kind, and no given text is white space only. */
  lemma CreationMeans(e: Evidence)
    ensures Create(e).Some? <==>
              && e.kind in KindsFor(e.confidence)
              && forall t :: t in {e.source, e.location, e.observation} && t.Given? ==> exists c :: c in t.text && !IsSpace(c)
    ensures Create(e).Some? ==> Create(e).value == e
  {}

  /** The evidence that each factory gives. */
  lemma FactoriesGive(path: string, text: string, line: nat, flag: bool, hint: real)
    ensures var e := FromSourceCode(path, text, line);
            e.Some? ==> e.value.kind == Direct && e.value.confidence == 0.95 && e.value.source == Worded(SourceCode, "")
                        && e.value.location == (if line == 0 then Given(path) else AtLine(path, line))
                        && e.value.observation == Worded(SymbolFound, text)
    ensures var e := FromParserOutput(path, flag);
            e.Some? ==> e.value.kind == Direct && e.value.confidence == 1.0 && e.value.source == Worded(ParserOutput, "")
                        && e.value.location == Given(path)
                        && e.value.observation == Worded(if !flag then ParserDidNotExtract else ParserExtracted, "")
    ensures var e := FromRetrievalResult(text, flag);
            e.Some? ==> e.value.kind == Indirect && e.value.confidence == (if flag then 0.7 else 0.5)
                        && e.value.source == Worded(SearchApi, "") && e.value.location == Worded(SearchEndpoint, "")
                        && e.value.observation == Worded(SearchReturned, text)
    ensures var e := FromTestFixture(path, text, flag);
            e.Some? ==> e.value.kind == Unverified && e.value.confidence == (if flag then 0.3 else 0.5)
                        && e.value.source == Worded(TestFixture, "")
                        && e.value.location == Given(path) && e.value.observation == Given(text)
    ensures var e := FromAgentReport(path, text, hint);
            e.Some? ==> e.value.kind == Unverified && e.value.confidence == hint && e.value.source == Worded(AgentReport, "")
                        && e.value.location == Worded(AgentLabel, path) && e.value.observation == Given(text)
  {}
}
