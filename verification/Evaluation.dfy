/**
 * backend/evaluation/evaluator.py: the deterministic metrics of one run. Ratios
 * are reals; `norm` stands for normalize_path, `lower` for str.lower and `round4`
 * for rounding to four digits.
 */
module Evaluation {
  import opened Basics

  // -------------------------------------------------------- retrieval

  /** `a in b` on strings */
  predicate Occurs(a: string, b: string) {
    exists i :: 0 <= i <= |b| && a <= b[i..]
  }

  predicate Alike(a: string, b: string) {
    Occurs(a, b) || Occurs(b, a)
  }

  /** Some of the first `k` ranked files is like `f`. */
  predicate Hit(f: string, ranked: seq<string>, k: nat) {
    exists i :: 0 <= i < |ranked| && i < k && Alike(f, ranked[i])
  }

  function Hits(wanted: set<string>, ranked: seq<string>, k: nat): set<string> {
    set f | f in wanted && Hit(f, ranked, k)
  }

  /** The first `n` files without later repetitions. */
  function Distinct(files: seq<string>, n: nat): seq<string>
    requires n <= |files|
  {
    if n == 0 then []
    else if files[n - 1] in files[..n - 1] then Distinct(files, n - 1)
    else Distinct(files, n - 1) + [files[n - 1]]
  }

  function Ratio(part: nat, whole: nat, otherwise: real): real {
    if whole == 0 then otherwise else part as real / whole as real
  }

  function RecallAt(wanted: set<string>, ranked: seq<string>, k: nat): real {
    Ratio(|Hits(wanted, ranked, k)|, |wanted|, 1.0)
  }

  /** Normalized, without empty entries. */
  function Normalized(files: seq<string>, norm: string -> string): seq<string> {
    if files == [] then []
    else (if files[0] == "" then [] else [norm(files[0])]) + Normalized(files[1..], norm)
  }

  function NormalizedSet(files: seq<string>, norm: string -> string): set<string> {
    set f | f in files && f != "" :: norm(f)
  }

  datatype Retrieval = Retrieval(
    ranked: seq<string>, required: set<string>, supporting: set<string>, decoys: set<string>,
    found: set<string>, missed: set<string>, supportingFound: set<string>, decoysUsed: set<string>,
    relevantHits: nat, leaked: seq<string>)

  /** Files outside the repository's prefix, in order. */
  function Outside(ranked: seq<string>, n: nat, prefix: string): seq<string>
    requires n <= |ranked|
  {
    if n == 0 then []
    else Outside(ranked, n - 1, prefix) + if StartsWith(ranked[n - 1], prefix) then [] else [ranked[n - 1]]
  }

  function RelevantHits(ranked: seq<string>, n: nat, relevant: set<string>): nat
    requires n <= |ranked|
  {
    if n == 0 then 0
    else RelevantHits(ranked, n - 1, relevant) + if IsRelevant(ranked[n - 1], relevant) then 1 else 0
  }

  predicate IsRelevant(file: string, relevant: set<string>) {
    exists f :: f in relevant && Alike(f, file)
  }

  /** The ranking loop: keep a file the first time it is seen. */
  method RemoveRepeats(files: seq<string>) returns (unique: seq<string>)
    ensures unique == Distinct(files, |files|)
  {
    unique := [];
    var seen := {};
    for i := 0 to |files|
      invariant unique == Distinct(files, i)
      invariant forall f :: f in seen <==> f in files[..i]
    {
      assert files[..i + 1] == files[..i] + [files[i]];
      if files[i] !in seen {
        seen := seen + {files[i]};
        unique := unique + [files[i]];
      }
    }
  }

  /** The published ratios, rounded. */
  datatype Rates = Rates(
    evidenceRecall: real, precision: real, recallAt1: real, recallAt3: real, recallAt5: real, recallAt10: real,
    decoyHit: nat, decoyRate: real, leakageRate: real)

  /** calculate_retrieval_metrics */
  method RetrievalMetrics(
    retrieved: seq<string>, required: seq<string>, supporting: seq<string>, decoys: seq<string>,
    prefix: string, norm: string -> string, lower: string -> string, round4: real -> real)
      returns (r: Retrieval, rates: Rates)
    ensures r.ranked == Distinct(Normalized(retrieved, norm), |Normalized(retrieved, norm)|)
    ensures r.required == (set f | f in required && f != "" :: norm(f))
    ensures r.found == Hits(r.required, r.ranked, |r.ranked|)
    ensures r.missed == r.required - r.found
    ensures r.supporting == (set f | f in supporting && f != "" :: norm(f))
    ensures r.supportingFound == Hits(r.supporting, r.ranked, |r.ranked|)
    ensures r.decoys == (set f | f in decoys && f != "" :: norm(f))
    ensures r.decoysUsed == Hits(r.decoys, r.ranked, |r.ranked|)
    ensures r.relevantHits == RelevantHits(r.ranked, |r.ranked|, r.required + r.supporting)
    ensures r.leaked == if prefix == "" then [] else Outside(r.ranked, |r.ranked|, lower(prefix))
    ensures NoRepeats(r.leaked) && forall f :: f in r.leaked <==> prefix != "" && IsLeaked(f, r.ranked, lower(prefix))
    ensures rates.evidenceRecall == round4(RecallAt(r.required, r.ranked, |r.ranked|))
    ensures rates.recallAt1 == round4(RecallAt(r.required, r.ranked, 1))
    ensures rates.recallAt3 == round4(RecallAt(r.required, r.ranked, 3))
    ensures rates.recallAt5 == round4(RecallAt(r.required, r.ranked, 5))
    ensures rates.recallAt10 == round4(RecallAt(r.required, r.ranked, 10))
    ensures rates.precision == round4(Ratio(r.relevantHits, |r.ranked|, 0.0))
    ensures rates.decoyHit == if r.decoysUsed == {} then 0 else 1
    ensures rates.decoyRate == round4(Ratio(|r.decoysUsed|, |r.decoys|, 0.0))
    ensures rates.leakageRate == round4(Ratio(|r.leaked|, |r.ranked|, 0.0))
  {
    var ranked := RemoveRepeats(Normalized(retrieved, norm));
    var req, sup, dec := NormalizedSet(required, norm), NormalizedSet(supporting, norm), NormalizedSet(decoys, norm);
    var found := Hits(req, ranked, |ranked|);
    var missed := set f | f in req && f !in found;
    var hits := CountRelevant(ranked, req + sup);
    DistinctMeaning(Normalized(retrieved, norm), |Normalized(retrieved, norm)|);
    var leaked := CrossRepoFiles(ranked, prefix, lower);
    r := Retrieval(ranked, req, sup, dec, found, missed,
                   Hits(sup, ranked, |ranked|), Hits(dec, ranked, |ranked|), hits, leaked);
    rates := RatesOf(r, round4);
  }

  method CountRelevant(ranked: seq<string>, relevant: set<string>) returns (hits: nat)
    ensures hits == RelevantHits(ranked, |ranked|, relevant)
  {
    hits := 0;
    for i := 0 to |ranked|
      invariant hits == RelevantHits(ranked, i, relevant)
    {
      if IsRelevant(ranked[i], relevant) {
        hits := hits + 1;
      }
    }
  }

  /** No prefix means no check. */
  method CrossRepoFiles(ranked: seq<string>, prefix: string, lower: string -> string) returns (leaked: seq<string>)
    requires NoRepeats(ranked)
    ensures leaked == if prefix == "" then [] else Outside(ranked, |ranked|, lower(prefix))
    ensures NoRepeats(leaked) && forall f :: f in leaked <==> prefix != "" && IsLeaked(f, ranked, lower(prefix))
  {
    leaked := [];
    if prefix != "" {
      leaked := CollectOutside(ranked, lower(prefix));
      LeakedAre(ranked, lower(prefix));
    }
  }

  method CollectOutside(ranked: seq<string>, prefix: string) returns (leaked: seq<string>)
    ensures leaked == Outside(ranked, |ranked|, prefix)
  {
    leaked := [];
    for i := 0 to |ranked|
      invariant leaked == Outside(ranked, i, prefix)
    {
      if !StartsWith(ranked[i], prefix) {
        leaked := leaked + [ranked[i]];
      }
    }
  }

  method RatesOf(r: Retrieval, round4: real -> real) returns (rates: Rates)
    requires r.found == Hits(r.required, r.ranked, |r.ranked|)
    ensures rates == Rates(
              round4(RecallAt(r.required, r.ranked, |r.ranked|)), round4(Ratio(r.relevantHits, |r.ranked|, 0.0)),
              round4(RecallAt(r.required, r.ranked, 1)), round4(RecallAt(r.required, r.ranked, 3)),
              round4(RecallAt(r.required, r.ranked, 5)), round4(RecallAt(r.required, r.ranked, 10)),
              if r.decoysUsed == {} then 0 else 1,
              round4(Ratio(|r.decoysUsed|, |r.decoys|, 0.0)), round4(Ratio(|r.leaked|, |r.ranked|, 0.0)))
  {
    var evidenceRecall := if r.required != {} then |r.found| as real / |r.required| as real else 1.0;
    var precision := if r.ranked != [] then r.relevantHits as real / |r.ranked| as real else 0.0;
    var decoyHit := if |r.decoysUsed| > 0 then 1 else 0;
    var decoyRate := if r.decoys != {} then |r.decoysUsed| as real / |r.decoys| as real else 0.0;
    var leakageRate := if r.ranked != [] then |r.leaked| as real / |r.ranked| as real else 0.0;
    rates := Rates(round4(evidenceRecall), round4(precision),
                   round4(RecallAt(r.required, r.ranked, 1)), round4(RecallAt(r.required, r.ranked, 3)),
                   round4(RecallAt(r.required, r.ranked, 5)), round4(RecallAt(r.required, r.ranked, 10)),
                   decoyHit, round4(decoyRate), round4(leakageRate));
  }

  /** With any monotone rounding the published recalls grow with K up to evidence recall. */
  lemma PublishedRecalls(r: Retrieval, round4: real -> real, rates: Rates)
    requires forall x, y :: x <= y ==> round4(x) <= round4(y)
    requires round4(0.0) == 0.0 && round4(1.0) == 1.0
    requires rates.evidenceRecall == round4(RecallAt(r.required, r.ranked, |r.ranked|))
    requires rates.recallAt1 == round4(RecallAt(r.required, r.ranked, 1))
    requires rates.recallAt3 == round4(RecallAt(r.required, r.ranked, 3))
    requires rates.recallAt5 == round4(RecallAt(r.required, r.ranked, 5))
    requires rates.recallAt10 == round4(RecallAt(r.required, r.ranked, 10))
    ensures 0.0 <= rates.recallAt1 <= rates.recallAt3 <= rates.recallAt5 <= rates.recallAt10 <= rates.evidenceRecall <= 1.0
    ensures |r.ranked| <= 10 ==> rates.recallAt10 == rates.evidenceRecall
  {
    RoundedRecallLaws(r.required, r.ranked, 1, 3, round4);
    RoundedRecallLaws(r.required, r.ranked, 3, 5, round4);
    RoundedRecallLaws(r.required, r.ranked, 5, 10, round4);
  }

  /** Relevant hits are among the ranked files, so precision is a ratio; it is full exactly if all are relevant. */
  lemma {:induction false} RelevantHitsMeaning(ranked: seq<string>, n: nat, relevant: set<string>)
    requires n <= |ranked|
    ensures RelevantHits(ranked, n, relevant) <= n
    ensures RelevantHits(ranked, n, relevant) == n <==>
              forall i :: 0 <= i < n ==> IsRelevant(ranked[i], relevant)
  {
    if n > 0 {
      RelevantHitsMeaning(ranked, n - 1, relevant);
    }
  }

  // ------------------------------------------------------- what they mean

  /** Each file once, at the place of its first occurrence. */
  lemma {:induction false} DistinctMeaning(files: seq<string>, n: nat)
    requires n <= |files|
    ensures NoRepeats(Distinct(files, n))
    ensures forall f :: f in Distinct(files, n) <==> f in files[..n]
    ensures forall k :: 0 <= k <= n ==> Distinct(files, k) <= Distinct(files, n)
  {
    if n > 0 {
      DistinctMeaning(files, n - 1);
      assert files[..n] == files[..n - 1] + [files[n - 1]];
    }
  }

  /** `a in b`: something before it, something after it. */
  lemma OccursMeans(a: string, b: string)
    ensures Occurs(a, b) <==> exists u: string, v: string :: b == u + a + v
  {
    if Occurs(a, b) {
      var i :| 0 <= i <= |b| && a <= b[i..];
      assert b == b[..i] + a + b[i + |a|..];
    }
    if u: string, v: string :| b == u + a + v {
      assert b[|u|..] == a + v;
      assert 0 <= |u| <= |b| && a <= b[|u|..];
    }
  }

  /** Recall@K is the share of the wanted files that are part of one of the first K ranked files, or contain it. */
  lemma RecallMeans(wanted: set<string>, ranked: seq<string>, k: nat)
    ensures wanted == {} ==> RecallAt(wanted, ranked, k) == 1.0
    ensures var met := set f | f in wanted && exists i :: 0 <= i < k && i < |ranked| && (Occurs(f, ranked[i]) || Occurs(ranked[i], f));
            wanted != {} ==> RecallAt(wanted, ranked, k) == |met| as real / |wanted| as real
  {
    assert Hits(wanted, ranked, k) ==
           set f | f in wanted && exists i :: 0 <= i < k && i < |ranked| && (Occurs(f, ranked[i]) || Occurs(ranked[i], f));
  }

  /** Relevant hits are the ranked files that are part of a relevant one, or contain it. */
  lemma RelevantHitsCount(ranked: seq<string>, relevant: set<string>)
    ensures RelevantHits(ranked, |ranked|, relevant) ==
              |set i: nat | i < |ranked| && (exists f :: f in relevant && (Occurs(f, ranked[i]) || Occurs(ranked[i], f)))|
  {
    var p := (i: nat) => i < |ranked| && IsRelevant(ranked[i], relevant);
    CounterCounts(p, (n: nat) => if n <= |ranked| then RelevantHits(ranked, n, relevant) else 0, |ranked|);
    assert (set i: nat | i < |ranked| && p(i)) ==
           set i: nat | i < |ranked| && (exists f :: f in relevant && (Occurs(f, ranked[i]) || Occurs(ranked[i], f)));
  }

  /** `at[i]` is the place in the retrieved list where the i-th ranked file comes up for the first time. */
  predicate FirstPlaces(ranked: seq<string>, files: seq<string>, n: nat, at: seq<nat>) {
    && n <= |files| && |at| == |ranked|
    && (forall i, j :: 0 <= i < j < |at| ==> at[i] < at[j])
    && forall i :: 0 <= i < |at| ==>
         at[i] < n && files[at[i]] == ranked[i] && forall j :: 0 <= j < at[i] ==> files[j] != ranked[i]
  }

  /** The ranking lists the files in the order of their first occurrence. */
  lemma {:induction false} DistinctOrder(files: seq<string>, n: nat) returns (at: seq<nat>)
    requires n <= |files|
    ensures FirstPlaces(Distinct(files, n), files, n, at)
  {
    if n == 0 {
      at := [];
    } else {
      at := DistinctOrder(files, n - 1);
      at := OneMorePlace(files, n - 1, at);
    }
  }

  lemma OneMorePlace(files: seq<string>, n: nat, at: seq<nat>) returns (more: seq<nat>)
    requires n < |files| && FirstPlaces(Distinct(files, n), files, n, at)
    ensures FirstPlaces(Distinct(files, n + 1), files, n + 1, more)
  {
    more := at;
    if files[n] !in files[..n] {
      more := at + [n];
      forall j | 0 <= j < n ensures files[j] != files[n] {
        assert files[..n][j] == files[j];
      }
    }
  }

  lemma NormalizedFirst(f: string, rest: seq<string>, norm: string -> string)
    ensures Normalized([f] + rest, norm) == (if f == "" then [] else [norm(f)]) + Normalized(rest, norm)
    ensures Normalized([], norm) == []
  {
    assert ([f] + rest)[1..] == rest;
  }

  /** Normalization works entry by entry: the order stays, and only empty entries are left out. */
  lemma {:induction false} NormalizedConcat(a: seq<string>, b: seq<string>, norm: string -> string)
    ensures Normalized(a + b, norm) == Normalized(a, norm) + Normalized(b, norm)
  {
    if a == [] {
      assert a + b == b;
    } else {
      var f, rest := a[0], a[1..];
      NormalizedConcat(rest, b, norm);
      NormalizedFirst(f, rest, norm);
      NormalizedFirst(f, rest + b, norm);
      assert a == [f] + rest && a + b == [f] + (rest + b);
      Reassociate(if f == "" then [] else [norm(f)], Normalized(rest, norm), Normalized(b, norm));
    }
  }

  lemma SubsetSize(a: set<string>, b: set<string>)
    requires a <= b
    ensures |a| <= |b|
    ensures |a| == |b| ==> a == b
    decreases |a|
  {
    if a != {} {
      var x :| x in a;
      SubsetSize(a - {x}, b - {x});
      if |a| == |b| {
        assert a == (a - {x}) + {x};
        assert b == (b - {x}) + {x};
      }
    }
  }

  lemma RatioBounds(part: nat, more: nat, whole: nat, otherwise: real)
    requires part <= more <= whole && 0.0 <= otherwise <= 1.0
    ensures 0.0 <= Ratio(part, whole, otherwise) <= Ratio(more, whole, otherwise) <= 1.0
    ensures whole > 0 ==> (Ratio(part, whole, otherwise) == 0.0 <==> part == 0)
    ensures whole > 0 ==> (Ratio(part, whole, otherwise) == 1.0 <==> part == whole)
  {
    if whole > 0 {
      var w := whole as real;
      assert part as real / w * w == part as real && more as real / w * w == more as real;
      Divide(part as real, more as real, w);
      Divide(more as real, w, w);
      Divide(0.0, part as real, w);
    }
  }

  lemma Divide(a: real, b: real, c: real)
    requires a <= b && c > 0.0
    ensures a / c <= b / c
  {
    var p, q := a / c, b / c;
    assert p * c == a && q * c == b;
    if q < p {
      Scale(q, p, c);
    }
  }

  /**
   * Recall@K lies in [0, 1], grows with K, never exceeds evidence recall, equals it once K covers the
   * ranking, and is 1 exactly when every required file is met by one of the first K.
   */
  lemma RecallLaws(wanted: set<string>, ranked: seq<string>, j: nat, k: nat)
    requires j <= k
    ensures 0.0 <= RecallAt(wanted, ranked, j) <= RecallAt(wanted, ranked, k) <= RecallAt(wanted, ranked, |ranked|) <= 1.0
    ensures k >= |ranked| ==> RecallAt(wanted, ranked, k) == RecallAt(wanted, ranked, |ranked|)
    ensures RecallAt(wanted, ranked, k) == 1.0 <==> forall f :: f in wanted ==> Hit(f, ranked, k)
  {
    var a, b, c := Hits(wanted, ranked, j), Hits(wanted, ranked, k), Hits(wanted, ranked, |ranked|);
    assert forall f :: Hit(f, ranked, j) ==> Hit(f, ranked, k);
    assert forall f :: Hit(f, ranked, k) ==> Hit(f, ranked, |ranked|);
    if k >= |ranked| {
      assert forall f :: Hit(f, ranked, |ranked|) ==> Hit(f, ranked, k);
      assert b == c;
    }
    SubsetSize(a, b);
    SubsetSize(b, c);
    SubsetSize(c, wanted);
    SubsetSize(b, wanted);
    RatioBounds(|a|, |b|, |wanted|, 1.0);
    RatioBounds(|b|, |c|, |wanted|, 1.0);
    if forall f :: f in wanted ==> Hit(f, ranked, k) {
      assert b == wanted;
    }
  }

  /** The same holds of the published figures: any monotone rounding that fixes 0 and 1 keeps the order. */
  lemma RoundedRecallLaws(wanted: set<string>, ranked: seq<string>, j: nat, k: nat, round4: real -> real)
    requires j <= k
    requires forall x, y :: x <= y ==> round4(x) <= round4(y)
    requires round4(0.0) == 0.0 && round4(1.0) == 1.0
    ensures var r := (n: nat) => round4(RecallAt(wanted, ranked, n));
            && 0.0 <= r(j) <= r(k) <= r(|ranked|) <= 1.0
            && (k >= |ranked| ==> r(k) == r(|ranked|))
  {
    RecallLaws(wanted, ranked, j, k);
    var a, b, c := RecallAt(wanted, ranked, j), RecallAt(wanted, ranked, k), RecallAt(wanted, ranked, |ranked|);
    assert round4(0.0) <= round4(a) <= round4(b) <= round4(c) <= round4(1.0);
  }

  /** Found and missed evidence partition what is required. */
  lemma FoundAndMissed(wanted: set<string>, ranked: seq<string>)
    ensures var found := Hits(wanted, ranked, |ranked|);
            && found + (wanted - found) == wanted
            && |found| + |wanted - found| == |wanted|
            && forall f :: f in wanted - found <==> f in wanted && forall r :: r in ranked ==> !Occurs(f, r) && !Occurs(r, f)
  {
    var found := Hits(wanted, ranked, |ranked|);
    assert found + (wanted - found) == wanted;
    forall f ensures Hit(f, ranked, |ranked|) <==> exists r :: r in ranked && Alike(f, r) {
      if r :| r in ranked && Alike(f, r) {
        var i :| 0 <= i < |ranked| && ranked[i] == r;
        assert Alike(f, ranked[i]);
      }
    }
  }

  /** The leaked files are exactly the ranked ones without the prefix, and none twice if none is ranked twice. */
  lemma {:induction false} OutsideMeaning(ranked: seq<string>, n: nat, prefix: string)
    requires n <= |ranked|
    ensures |Outside(ranked, n, prefix)| <= n
    ensures forall f :: f in Outside(ranked, n, prefix) <==> f in ranked[..n] && !StartsWith(f, prefix)
    ensures NoRepeats(ranked[..n]) ==> NoRepeats(Outside(ranked, n, prefix))
  {
    if n > 0 {
      var init, last := ranked[..n - 1], ranked[n - 1];
      assert ranked[..n] == init + [last];
      OutsideMeaning(ranked, n - 1, prefix);
      if NoRepeats(ranked[..n]) {
        assert forall i, j :: 0 <= i < j < n - 1 ==> ranked[..n][i] != ranked[..n][j];
        assert forall i :: 0 <= i < n - 1 ==> init[i] == ranked[..n][i] && ranked[..n][i] != ranked[..n][n - 1];
        NoRepeatsConcat(Outside(ranked, n - 1, prefix), if StartsWith(last, prefix) then [] else [last]);
      }
    }
  }

  /** What the evaluator calls leakage. */
  predicate IsLeaked(f: string, ranked: seq<string>, prefix: string) {
    f in ranked && !StartsWith(f, prefix)
  }

  lemma LeakedAre(ranked: seq<string>, prefix: string)
    ensures forall f :: f in Outside(ranked, |ranked|, prefix) <==> IsLeaked(f, ranked, prefix)
    ensures Outside(ranked, |ranked|, prefix) == [] <==> forall f :: !IsLeaked(f, ranked, prefix)
    ensures NoRepeats(ranked) ==> NoRepeats(Outside(ranked, |ranked|, prefix))
  {
    OutsideMeaning(ranked, |ranked|, prefix);
    assert ranked[..|ranked|] == ranked;
    var leaked := Outside(ranked, |ranked|, prefix);
    if leaked != [] {
      assert leaked[0] in leaked;
      assert IsLeaked(leaked[0], ranked, prefix);
    }
  }

  // ----------------------------------------------------------- efficiency

  /** One turn; `tool` is "" for a turn without a call, `arguments` its arguments as sorted JSON. */
  datatype Turn = Turn(duration: real, tool: string, path: string, arguments: string, ok: bool, useful: bool)

  datatype Aspect = Call | Success | Failed | Unexpected | Unregistered | Search | UsefulCall

  /**
   * What is fixed for a run: the required files, the expected tools if any, the tool names the evaluator
   * knows (five registered, one of which reads a file and two of which search) and the two string functions.
   */
  datatype Setting = Setting(
    required: set<string>, expected: Option<set<string>>,
    registered: set<string>, readFile: string, searchTools: set<string>,
    norm: string -> string, lower: string -> string)

  predicate Is(t: Turn, aspect: Aspect, s: Setting) {
    t.tool != "" &&
    match aspect
    case Call => true
    case Success => t.ok
    case Failed => !t.ok
    case Unexpected => t.ok && s.expected.Some? && s.lower(t.tool) !in s.expected.value
    case Unregistered => s.lower(t.tool) !in s.registered
    case Search => t.tool in s.searchTools
    case UsefulCall => t.ok && t.useful
  }

  /** How many of the first `n` turns are of this kind. */
  function Tally(turns: seq<Turn>, n: nat, aspect: Aspect, s: Setting): nat
    requires n <= |turns|
  {
    if n == 0 then 0 else Tally(turns, n - 1, aspect, s) + if Is(turns[n - 1], aspect, s) then 1 else 0
  }

  function Signature(t: Turn): string {
    t.tool + ":" + t.arguments
  }

  function Signatures(turns: seq<Turn>, n: nat): set<string>
    requires n <= |turns|
  {
    set i | 0 <= i < n && turns[i].tool != "" :: Signature(turns[i])
  }

  /** Calls that repeat an earlier one. */
  function Redundant(turns: seq<Turn>, n: nat): nat
    requires n <= |turns|
  {
    if n == 0 then 0
    else
      Redundant(turns, n - 1) +
      if turns[n - 1].tool != "" && Signature(turns[n - 1]) in Signatures(turns, n - 1) then 1 else 0
  }

  /** A successful read_file of a nameable file. */
  predicate Reads(t: Turn, s: Setting) {
    t.tool != "" && t.tool == s.readFile && t.ok && s.norm(t.path) != ""
  }

  function FilesRead(turns: seq<Turn>, n: nat, s: Setting): set<string>
    requires n <= |turns|
  {
    set i | 0 <= i < n && Reads(turns[i], s) :: s.norm(turns[i].path)
  }

  function Elapsed(turns: seq<Turn>, n: nat): real
    requires n <= |turns|
  {
    if n == 0 then 0.0 else Elapsed(turns, n - 1) + turns[n - 1].duration
  }

  predicate ReadsRequired(t: Turn, s: Setting) {
    Reads(t, s) && s.norm(t.path) in s.required
  }

  /** The time to first useful evidence is the time elapsed through the first required read. */
  predicate IsFirstEvidence(turns: seq<Turn>, n: nat, s: Setting, at: Option<real>)
    requires n <= |turns|
  {
    if at == None then forall i :: 0 <= i < n ==> !ReadsRequired(turns[i], s)
    else exists i :: 0 <= i < n && ReadsRequired(turns[i], s) && at.value == Elapsed(turns, i + 1)
                     && forall j :: 0 <= j < i ==> !ReadsRequired(turns[j], s)
  }

  lemma FirstEvidenceStep(turns: seq<Turn>, n: nat, s: Setting, at: Option<real>)
    requires n < |turns| && IsFirstEvidence(turns, n, s, at)
    ensures IsFirstEvidence(turns, n + 1, s,
              if at == None && ReadsRequired(turns[n], s) then Some(Elapsed(turns, n + 1)) else at)
  {}

  datatype Efficiency = Efficiency(
    calls: nat, successful: nat, failed: nat, redundant: nat, uniqueFiles: nat, searches: nat, useful: nat,
    firstEvidence: Option<real>, unnecessary: nat, invalid: nat, failedSelections: nat)

  /** The variables of the loop. */
  datatype Counters = Counters(
    calls: nat, successful: nat, failed: nat, redundant: nat, unnecessary: nat, invalid: nat, searches: nat,
    files: set<string>, seen: set<string>, first: Option<real>, elapsed: real)

  function One(condition: bool): nat {
    if condition then 1 else 0
  }

  /** Their values after `n` turns. */
  ghost predicate Counted(turns: seq<Turn>, n: nat, s: Setting, c: Counters)
    requires n <= |turns|
  {
    && c.calls == Tally(turns, n, Call, s)
    && c.successful == Tally(turns, n, Success, s) && c.failed == Tally(turns, n, Failed, s)
    && c.searches == Tally(turns, n, Search, s)
    && c.unnecessary == Tally(turns, n, Unexpected, s)
    && c.invalid == Tally(turns, n, Unregistered, s) + Tally(turns, n, Failed, s)
    && c.redundant == Redundant(turns, n)
    && c.files == FilesRead(turns, n, s) && c.seen == Signatures(turns, n)
    && c.elapsed == Elapsed(turns, n) && IsFirstEvidence(turns, n, s, c.first)
  }

  /** What one turn adds to the counters. */
  predicate Adds(turn: Turn, s: Setting, before: Counters, c: Counters) {
    && c.calls == before.calls + One(Is(turn, Call, s))
    && c.successful == before.successful + One(Is(turn, Success, s))
    && c.failed == before.failed + One(Is(turn, Failed, s))
    && c.redundant == before.redundant + One(Is(turn, Call, s) && Signature(turn) in before.seen)
    && c.unnecessary == before.unnecessary + One(Is(turn, Unexpected, s))
    && c.invalid == before.invalid + One(Is(turn, Unregistered, s)) + One(Is(turn, Failed, s))
    && c.searches == before.searches + One(Is(turn, Search, s))
    && c.files == before.files + (if Reads(turn, s) then {s.norm(turn.path)} else {})
    && c.seen == before.seen + (if Is(turn, Call, s) then {Signature(turn)} else {})
    && c.elapsed == before.elapsed + turn.duration
    && c.first == if before.first == None && ReadsRequired(turn, s) then Some(c.elapsed) else before.first
  }

  lemma CountedStep(turns: seq<Turn>, n: nat, s: Setting, before: Counters, c: Counters)
    requires n < |turns| && Counted(turns, n, s, before) && Adds(turns[n], s, before, c)
    ensures Counted(turns, n + 1, s, c)
  {
    FirstEvidenceStep(turns, n, s, before.first);
    FilesGrow(turns, n + 1, s);
    SignaturesGrow(turns, n + 1);
  }

  /** The body of the loop. */
  method CountTurn(turn: Turn, s: Setting, before: Counters) returns (c: Counters)
    ensures Adds(turn, s, before, c)
  {
    var Counters(calls, successful, failed, redundant, unnecessary, invalid, searches, files, seen, first, elapsed) := before;
    elapsed := elapsed + turn.duration;
    if turn.tool == "" {
      return before.(elapsed := elapsed);
    }
    calls := calls + 1;
    var name := s.lower(turn.tool);
    if name !in s.registered {
      invalid := invalid + 1;
    }
    if turn.ok {
      successful := successful + 1;
      if s.expected.Some? && name !in s.expected.value {
        unnecessary := unnecessary + 1;
      }
    } else {
      failed := failed + 1;
      invalid := invalid + 1;
    }
    if turn.tool in s.searchTools {
      searches := searches + 1;
    }
    if turn.tool == s.readFile && turn.ok {
      var path := s.norm(turn.path);
      if path != "" {
        files := files + {path};
        if path in s.required && first == None {
          first := Some(elapsed);
        }
      }
    }
    if Signature(turn) in seen {
      redundant := redundant + 1;
      assert seen == seen + {Signature(turn)};
    } else {
      seen := seen + {Signature(turn)};
    }
    c := Counters(calls, successful, failed, redundant, unnecessary, invalid, searches, files, seen, first, elapsed);
  }

  /** calculate_tool_efficiency */
  method ToolEfficiency(turns: seq<Turn>, s: Setting) returns (e: Efficiency)
    ensures e.calls == Tally(turns, |turns|, Call, s)
    ensures e.successful == Tally(turns, |turns|, Success, s) && e.failed == Tally(turns, |turns|, Failed, s)
    ensures e.redundant == Redundant(turns, |turns|)
    ensures e.uniqueFiles == |FilesRead(turns, |turns|, s)|
    ensures e.searches == Tally(turns, |turns|, Search, s) && e.useful == Tally(turns, |turns|, UsefulCall, s)
    ensures IsFirstEvidence(turns, |turns|, s, e.firstEvidence)
    ensures e.unnecessary == Tally(turns, |turns|, Unexpected, s)
    ensures e.invalid == Tally(turns, |turns|, Unregistered, s) + Tally(turns, |turns|, Failed, s)
    ensures e.failedSelections == One(e.calls >= 3 && e.uniqueFiles == 0 && e.searches <= 1)
  {
    var c := Counters(0, 0, 0, 0, 0, 0, 0, {}, {}, None, 0.0);
    for i := 0 to |turns|
      invariant Counted(turns, i, s, c)
    {
      var after := CountTurn(turns[i], s, c);
      CountedStep(turns, i, s, c, after);
      c := after;
    }
    var useful := 0;
    for i := 0 to |turns|
      invariant useful == Tally(turns, i, UsefulCall, s)
    {
      if turns[i].tool != "" && turns[i].ok && turns[i].useful {
        useful := useful + 1;
      }
    }
    e := Efficiency(c.calls, c.successful, c.failed, c.redundant, |c.files|, c.searches, useful, c.first,
                    c.unnecessary, c.invalid, One(c.calls >= 3 && c.files == {} && c.searches <= 1));
  }

  /**
   * Successes and failures add up to the calls; useful and unnecessary calls are successes.
   */
  lemma {:induction false} CallsAddUp(turns: seq<Turn>, n: nat, s: Setting)
    requires n <= |turns|
    ensures Tally(turns, n, Success, s) + Tally(turns, n, Failed, s) == Tally(turns, n, Call, s)
    ensures Tally(turns, n, UsefulCall, s) <= Tally(turns, n, Success, s)
    ensures Tally(turns, n, Unexpected, s) <= Tally(turns, n, Success, s)
  {
    if n > 0 {
      CallsAddUp(turns, n - 1, s);
    }
  }

  lemma AddOne(a: set<string>, x: string)
    ensures |a + {x}| == |a| + One(x !in a)
    ensures a + {} == a
  {
    if x in a {
      assert a + {x} == a;
    }
  }

  lemma SignaturesGrow(turns: seq<Turn>, n: nat)
    requires 0 < n <= |turns|
    ensures Signatures(turns, n) ==
            Signatures(turns, n - 1) + if turns[n - 1].tool != "" then {Signature(turns[n - 1])} else {}
  {}

  lemma FilesGrow(turns: seq<Turn>, n: nat, s: Setting)
    requires 0 < n <= |turns|
    ensures FilesRead(turns, n, s) ==
            FilesRead(turns, n - 1, s) + if Reads(turns[n - 1], s) then {s.norm(turns[n - 1].path)} else {}
  {}

  /** Every call either repeats an earlier one or has a signature of its own. */
  lemma {:induction false} RedundantOrDistinct(turns: seq<Turn>, n: nat, s: Setting)
    requires n <= |turns|
    ensures Redundant(turns, n) + |Signatures(turns, n)| == Tally(turns, n, Call, s)
  {
    if n == 0 {
      assert Signatures(turns, 0) == {};
    } else {
      RedundantOrDistinct(turns, n - 1, s);
      SignaturesGrow(turns, n);
      AddOne(Signatures(turns, n - 1), Signature(turns[n - 1]));
    }
  }

  lemma ReadsStep(turns: seq<Turn>, n: nat, s: Setting)
    requires 0 < n <= |turns|
    ensures |FilesRead(turns, n, s)| <= |FilesRead(turns, n - 1, s)| + One(Reads(turns[n - 1], s))
  {
    FilesGrow(turns, n, s);
    AddOne(FilesRead(turns, n - 1, s), s.norm(turns[n - 1].path));
  }

  lemma SearchIsNoRead(t: Turn, s: Setting)
    requires s.readFile !in s.searchTools
    ensures One(Is(t, Search, s)) + One(Reads(t, s)) <= One(Is(t, Call, s))
  {}

  /** Searches and files read are different calls. */
  lemma {:induction false} ReadsAndSearches(turns: seq<Turn>, n: nat, s: Setting)
    requires n <= |turns| && s.readFile !in s.searchTools
    ensures Tally(turns, n, Search, s) + |FilesRead(turns, n, s)| <= Tally(turns, n, Call, s)
  {
    if n == 0 {
      assert FilesRead(turns, 0, s) == {};
    } else {
      ReadsAndSearches(turns, n - 1, s);
      ReadsStep(turns, n, s);
      SearchIsNoRead(turns[n - 1], s);
    }
  }

  /** The published rates lie in [0, 1]; a run without calls counts as successful. */
  lemma RatesAreRatios(turns: seq<Turn>, s: Setting)
    ensures var n := |turns|;
            var calls := Tally(turns, n, Call, s);
            && 0.0 <= Ratio(Tally(turns, n, UsefulCall, s), calls, 0.0)
            && 0.0 <= Ratio(Tally(turns, n, Success, s), calls, 1.0) <= 1.0
            && Ratio(Tally(turns, n, UsefulCall, s), calls, 0.0) <= Ratio(Tally(turns, n, Success, s), calls, 1.0)
            && 0.0 <= Ratio(Redundant(turns, n), calls, 0.0)
            && (calls > 0 ==> Ratio(Redundant(turns, n), calls, 0.0) < 1.0)
  {
    CallsAddUp(turns, |turns|, s);
    RedundantOrDistinct(turns, |turns|, s);
    var calls := Tally(turns, |turns|, Call, s);
    RatioBounds(Tally(turns, |turns|, UsefulCall, s), Tally(turns, |turns|, Success, s), calls, 0.0);
    RatioBounds(Tally(turns, |turns|, Success, s), calls, calls, 1.0);
    RatioBounds(Redundant(turns, |turns|), calls, calls, 0.0);
    if calls > 0 {
      SomeSignature(turns, |turns|, s);
    }
  }

  lemma {:induction false} SomeSignature(turns: seq<Turn>, n: nat, s: Setting)
    requires n <= |turns| && Tally(turns, n, Call, s) > 0
    ensures |Signatures(turns, n)| > 0
  {
    var i: nat := 0;
    while i < n && turns[i].tool == ""
      invariant i <= n && Tally(turns, i, Call, s) == 0
    {
      i := i + 1;
    }
    assert Signature(turns[i]) in Signatures(turns, n);
  }

  /** With durations that are not negative, the first evidence is never later than the whole run. */
  lemma {:induction false} EvidenceWithinRun(turns: seq<Turn>, i: nat, n: nat)
    requires i <= n <= |turns| && forall t :: t in turns ==> t.duration >= 0.0
    ensures 0.0 <= Elapsed(turns, i) <= Elapsed(turns, n)
    decreases n
  {
    if n > 0 {
      EvidenceWithinRun(turns, if i < n then i else n - 1, n - 1);
    }
  }

  // ------------------------------------------------- the counters as sets

  lemma TallyIs(turns: seq<Turn>, aspect: Aspect, s: Setting, which: set<nat>)
    requires forall i: nat :: i in which <==> i < |turns| && Is(turns[i], aspect, s)
    ensures Tally(turns, |turns|, aspect, s) == |which|
  {
    var p := (i: nat) => i in which;
    CounterCounts(p, (n: nat) => if n <= |turns| then Tally(turns, n, aspect, s) else 0, |turns|);
    assert which == set i: nat | i < |turns| && p(i);
  }

  /** What the counters count, in terms of the turns alone. */
  lemma CallsMean(turns: seq<Turn>, s: Setting)
    ensures Tally(turns, |turns|, Call, s) == |set i: nat | i < |turns| && turns[i].tool != ""|
    ensures Tally(turns, |turns|, Success, s) == |set i: nat | i < |turns| && turns[i].tool != "" && turns[i].ok|
    ensures Tally(turns, |turns|, Failed, s) == |set i: nat | i < |turns| && turns[i].tool != "" && !turns[i].ok|
  {
    TallyIs(turns, Call, s, set i: nat | i < |turns| && turns[i].tool != "");
    TallyIs(turns, Success, s, set i: nat | i < |turns| && turns[i].tool != "" && turns[i].ok);
    TallyIs(turns, Failed, s, set i: nat | i < |turns| && turns[i].tool != "" && !turns[i].ok);
  }

  lemma SearchesMean(turns: seq<Turn>, s: Setting)
    ensures Tally(turns, |turns|, Search, s) == |set i: nat | i < |turns| && turns[i].tool != "" && turns[i].tool in s.searchTools|
    ensures Tally(turns, |turns|, UsefulCall, s) ==
              |set i: nat | i < |turns| && turns[i].tool != "" && turns[i].ok && turns[i].useful|
  {
    TallyIs(turns, Search, s, set i: nat | i < |turns| && turns[i].tool != "" && turns[i].tool in s.searchTools);
    TallyIs(turns, UsefulCall, s, set i: nat | i < |turns| && turns[i].tool != "" && turns[i].ok && turns[i].useful);
  }

  /** The same for the two counters that look a tool up, in lower case. */
  lemma OddCallsMean(turns: seq<Turn>, s: Setting)
    ensures Tally(turns, |turns|, Unregistered, s) ==
              |set i: nat | i < |turns| && turns[i].tool != "" && s.lower(turns[i].tool) !in s.registered|
    ensures s.expected.None? ==> Tally(turns, |turns|, Unexpected, s) == 0
    ensures s.expected.Some? ==>
              Tally(turns, |turns|, Unexpected, s) ==
              |set i: nat | i < |turns| && turns[i].tool != "" && turns[i].ok && s.lower(turns[i].tool) !in s.expected.value|
  {
    TallyIs(turns, Unregistered, s, set i: nat | i < |turns| && turns[i].tool != "" && s.lower(turns[i].tool) !in s.registered);
    if s.expected.None? {
      TallyPositive(turns, |turns|, Unexpected, s);
    } else {
      TallyIs(turns, Unexpected, s,
              set i: nat | i < |turns| && turns[i].tool != "" && turns[i].ok && s.lower(turns[i].tool) !in s.expected.value);
    }
  }

  /** Turn `i` calls what an earlier turn has called. */
  predicate Repeats(turns: seq<Turn>, i: nat) {
    && i < |turns| && turns[i].tool != ""
    && exists j :: 0 <= j < i && turns[j].tool != ""
                   && turns[j].tool + ":" + turns[j].arguments == turns[i].tool + ":" + turns[i].arguments
  }

  function RepeatedTurns(turns: seq<Turn>, n: nat): set<nat> {
    set i: nat | i < n && Repeats(turns, i)
  }

  lemma RepeatedNext(turns: seq<Turn>, n: nat)
    ensures |RepeatedTurns(turns, n + 1)| == |RepeatedTurns(turns, n)| + if Repeats(turns, n) then 1 else 0
  {
    assert RepeatedTurns(turns, n + 1) == RepeatedTurns(turns, n) + if Repeats(turns, n) then {n} else {};
  }

  /** The redundant calls are the turns that repeat an earlier one. */
  lemma {:induction false} RedundantCounts(turns: seq<Turn>, n: nat)
    requires n <= |turns|
    ensures Redundant(turns, n) == |RepeatedTurns(turns, n)|
  {
    if n > 0 {
      RedundantCounts(turns, n - 1);
      RepeatIsSeen(turns, n - 1);
      RepeatedNext(turns, n - 1);
    }
  }

  lemma RepeatIsSeen(turns: seq<Turn>, i: nat)
    requires i < |turns|
    ensures Repeats(turns, i) <==> turns[i].tool != "" && Signature(turns[i]) in Signatures(turns, i)
  {
    if turns[i].tool != "" && Signature(turns[i]) in Signatures(turns, i) {
      var j :| 0 <= j < i && turns[j].tool != "" && Signature(turns[j]) == Signature(turns[i]);
    }
  }

  /** A file has been read by a successful read_file. */
  lemma FilesReadMean(turns: seq<Turn>, s: Setting)
    ensures forall f :: f in FilesRead(turns, |turns|, s) <==>
              f != "" && exists i :: 0 <= i < |turns| && turns[i].tool == s.readFile && turns[i].tool != "" && turns[i].ok
                                     && s.norm(turns[i].path) == f
  {}

  /** `clock` runs over the durations of the turns. */
  predicate IsClock(clock: seq<real>, turns: seq<Turn>) {
    && |clock| == |turns| + 1 && clock[0] == 0.0
    && forall j :: 0 <= j < |turns| ==> clock[j + 1] == clock[j] + turns[j].duration
  }

  /** The first evidence comes at the end of the first successful read_file of a required file. */
  lemma FirstEvidenceMeans(turns: seq<Turn>, s: Setting, at: Option<real>) returns (i: int, clock: seq<real>)
    requires IsFirstEvidence(turns, |turns|, s, at)
    ensures IsClock(clock, turns)
    ensures at.Some? ==> 0 <= i < |turns| && clock[i + 1] == at.value
                         && turns[i].tool == s.readFile && turns[i].ok && s.norm(turns[i].path) in s.required
    ensures at.None? ==> i == |turns|
    ensures forall j :: 0 <= j < i && turns[j].tool == s.readFile && turns[j].tool != "" && turns[j].ok ==>
              s.norm(turns[j].path) == "" || s.norm(turns[j].path) !in s.required
  {
    clock := seq(|turns| + 1, k requires 0 <= k <= |turns| => Elapsed(turns, k));
    i := |turns|;
    if at.Some? {
      i :| 0 <= i < |turns| && ReadsRequired(turns[i], s) && at.value == Elapsed(turns, i + 1)
           && forall j :: 0 <= j < i ==> !ReadsRequired(turns[j], s);
    }
  }

  // ------------------------------------------------------ the final category

  datatype Validity = Valid | LuckyCorrect | InsufficientEvidence | Incorrect

  /** classify_trajectory_validity */
  function Classify(correctness: real, recall: real, threshold: real): Validity {
    if correctness >= threshold then
      if recall >= threshold then Valid else LuckyCorrect
    else
      if recall >= threshold then Incorrect else InsufficientEvidence
  }

  datatype Failure =
    | NoFailure | CrossRepoLeakage | Hallucination | InvalidToolUse | FailedToolSelection
    | InsufficientSearch | RetrievalFailure | AnswerIncomplete | ReasoningFailure

  /** attribute_primary_failure */
  function PrimaryFailure(v: Validity, leakage: real, e: Efficiency, groundedness: real, completeness: real): Failure {
    if leakage > 0.0 then CrossRepoLeakage
    else if v == Valid then NoFailure
    else if groundedness < 0.5 then Hallucination
    else if v == InsufficientEvidence then
      if e.invalid > 0 || e.failed > 1 then InvalidToolUse
      else if e.failedSelections > 0 || (e.searches <= 1 && e.calls >= 4) then FailedToolSelection
      else if e.calls <= 2 then InsufficientSearch
      else RetrievalFailure
    else if v == Incorrect then
      if completeness < 0.5 then AnswerIncomplete else ReasoningFailure
    else if v == LuckyCorrect then RetrievalFailure
    else ReasoningFailure
  }

  /** Rounding to four digits: the nearest multiple, ties either way. */
  ghost predicate RoundsToFour(round4: real -> real) {
    forall x :: IsRounded(x, round4(x))
  }

  ghost predicate IsRounded(x: real, y: real) {
    x - 0.00005 <= y <= x + 0.00005 && exists k: int :: IsTenThousandths(y, k)
  }

  predicate IsTenThousandths(y: real, k: int) {
    y * 10000.0 == k as real
  }

  lemma RatioAgainst(part: nat, whole: nat)
    requires whole > 0
    ensures 20000 * part > whole ==> Ratio(part, whole, 0.0) > 0.00005
    ensures 20000 * part < whole ==> Ratio(part, whole, 0.0) < 0.00005
    ensures 20000 * part == whole ==> Ratio(part, whole, 0.0) == 0.00005
  {
    Divide(part as real, part as real, whole as real);
    QuotientAgainst(part as real, whole as real, Ratio(part, whole, 0.0));
  }

  lemma QuotientAgainst(part: real, whole: real, q: real)
    requires whole > 0.0 && q * whole == part
    ensures 20000.0 * part > whole ==> q > 0.00005
    ensures 20000.0 * part < whole ==> q < 0.00005
    ensures 20000.0 * part == whole ==> q == 0.00005
  {
    Associate(20000.0, q, whole);
    if q < 0.00005 {
      Scale(20000.0 * q, 1.0, whole);
    } else if q > 0.00005 {
      Scale(1.0, 20000.0 * q, whole);
    }
  }

  lemma Associate(a: real, b: real, c: real)
    ensures (a * b) * c == a * (b * c)
  {}

  lemma Scale(a: real, b: real, c: real)
    requires a < b && c > 0.0
    ensures a * c < b * c
  {}

  lemma RoundedAway(x: real, y: real, k: int)
    requires IsRounded(x, y) && IsTenThousandths(y, k) && x >= 0.0
    ensures x > 0.00005 ==> y > 0.0
    ensures x < 0.00005 ==> y <= 0.0
  {
    if x < 0.00005 {
      assert (k as real) < 1.0;
    }
  }

  /**
   * Files from another repository are reported as leakage exactly above one in twenty thousand, or at
   * that very rate if it rounds up; otherwise the category is the one a clean run would get.
   */
  lemma LeakageReported(ranked: seq<string>, prefix: string, round4: real -> real, v: Validity, e: Efficiency, g: real, c: real)
    requires RoundsToFour(round4) && ranked != []
    ensures var leaked := |Outside(ranked, |ranked|, prefix)|;
            var failure := PrimaryFailure(v, round4(Ratio(leaked, |ranked|, 0.0)), e, g, c);
            && (failure == CrossRepoLeakage <==>
                  20000 * leaked > |ranked| || (20000 * leaked == |ranked| && round4(0.00005) > 0.0))
            && (failure != CrossRepoLeakage ==> failure == PrimaryFailure(v, 0.0, e, g, c))
            && (failure == CrossRepoLeakage ==> exists f :: IsLeaked(f, ranked, prefix))
  {
    LeakedAre(ranked, prefix);
    var leaked := |Outside(ranked, |ranked|, prefix)|;
    var rate := Ratio(leaked, |ranked|, 0.0);
    assert IsRounded(rate, round4(rate));
    var k: int :| IsTenThousandths(round4(rate), k);
    RatioAgainst(leaked, |ranked|);
    RoundedAway(rate, round4(rate), k);
  }

  /** The four validities are the four quadrants of correctness and evidence recall at the threshold. */
  lemma ValidityMeans(correctness: real, recall: real, threshold: real)
    ensures var v := Classify(correctness, recall, threshold);
            && (v == Valid <==> correctness >= threshold && recall >= threshold)
            && (v == LuckyCorrect <==> correctness >= threshold && recall < threshold)
            && (v == Incorrect <==> correctness < threshold && recall >= threshold)
            && (v == InsufficientEvidence <==> correctness < threshold && recall < threshold)
  {}

  /**
   * Every category, decided from correctness, recall, groundedness, completeness and the calls of the run.
   * Leakage comes first, then full success, then hallucination. The calls matter only to a run that is
   * neither correct nor informed: an unsound call first, then too little searching, then too few calls.
   */
  lemma FailureMeans(correctness: real, recall: real, threshold: real, leakage: real, turns: seq<Turn>, s: Setting, e: Efficiency,
                     g: real, c: real)
    requires e.calls == Tally(turns, |turns|, Call, s)
    requires e.failed == Tally(turns, |turns|, Failed, s)
    requires e.invalid == Tally(turns, |turns|, Unregistered, s) + Tally(turns, |turns|, Failed, s)
    requires e.failedSelections == One(e.calls >= 3 && e.uniqueFiles == 0 && e.searches <= 1)
    ensures var f := PrimaryFailure(Classify(correctness, recall, threshold), leakage, e, g, c);
            var correct, informed := correctness >= threshold, recall >= threshold;
            var lost := g >= 0.5 && !correct && !informed;
            var sound := forall i :: 0 <= i < |turns| && turns[i].tool != "" ==>
                           turns[i].ok && s.lower(turns[i].tool) in s.registered;
            var poor := e.searches <= 1 && (e.calls >= 4 || (e.calls == 3 && e.uniqueFiles == 0));
            && (f == CrossRepoLeakage <==> leakage > 0.0)
            && (leakage <= 0.0 ==>
                  && (f == NoFailure <==> correct && informed)
                  && (f == Hallucination <==> !(correct && informed) && g < 0.5)
                  && (f == InvalidToolUse <==> lost && !sound)
                  && (f == FailedToolSelection <==> lost && sound && poor)
                  && (f == InsufficientSearch <==> lost && sound && e.calls <= 2)
                  && (f == RetrievalFailure <==>
                        (g >= 0.5 && correct && !informed) || (lost && sound && !poor && e.calls >= 3))
                  && (f == AnswerIncomplete <==> g >= 0.5 && !correct && informed && c < 0.5)
                  && (f == ReasoningFailure <==> g >= 0.5 && !correct && informed && c >= 0.5))
  {
    ValidityMeans(correctness, recall, threshold);
    SoundCalls(turns, s);
  }

  /** No call failed and none went to an unknown tool. */
  lemma SoundCalls(turns: seq<Turn>, s: Setting)
    ensures Tally(turns, |turns|, Failed, s) == 0 && Tally(turns, |turns|, Unregistered, s) == 0 <==>
              forall i :: 0 <= i < |turns| && turns[i].tool != "" ==> turns[i].ok && s.lower(turns[i].tool) in s.registered
  {
    TallyPositive(turns, |turns|, Failed, s);
    TallyPositive(turns, |turns|, Unregistered, s);
    forall i | 0 <= i < |turns|
      ensures (turns[i].tool != "" ==> turns[i].ok && s.lower(turns[i].tool) in s.registered) <==>
                !Is(turns[i], Failed, s) && !Is(turns[i], Unregistered, s)
    {}
  }

  lemma {:induction false} TallyPositive(turns: seq<Turn>, n: nat, aspect: Aspect, s: Setting)
    requires n <= |turns|
    ensures Tally(turns, n, aspect, s) > 0 <==> exists i :: 0 <= i < n && Is(turns[i], aspect, s)
  {
    if n > 0 {
      TallyPositive(turns, n - 1, aspect, s);
    }
  }
}
