/**
 * backend/repository_tools/truncation.py: cutting a list of lines at a semantic
 * boundary so that it fits a token budget.
 */
module Truncation {
  import opened Basics

  /** How boundaries are found; the definition pattern of code files stays uninterpreted. */
  datatype Kind = Text | Code(isDefinition: string -> bool)

  // -------------------------------------------------------------- strings

  function LStrip(s: string): string {
    if s != "" && IsSpace(s[0]) then LStrip(s[1..]) else s
  }

  function RStrip(s: string): string {
    if s != "" && IsSpace(s[|s| - 1]) then RStrip(s[..|s| - 1]) else s
  }

  function Strip(s: string): string {
    RStrip(LStrip(s))
  }

  predicate EndsSentence(s: string) {
    s != "" && s[|s| - 1] in {'.', '!', '?'}
  }

  // ----------------------------------------------------------- boundaries

  /** A cut before line `i` falls between two semantic units. */
  predicate StartsUnit(kind: Kind, lines: seq<string>, i: nat)
    requires 0 < i < |lines|
  {
    var line, prev := lines[i], Strip(lines[i - 1]);
    match kind
    case Code(isDefinition) =>
      isDefinition(line) || (prev == "" && Strip(line) != "" && !(line[0] in {' ', '\t'}))
    case Text =>
      var stripped := Strip(line);
      (stripped != "" && stripped[0] == '#') || (prev == "" && stripped != "") || EndsSentence(prev)
  }

  predicate IsBoundary(kind: Kind, lines: seq<string>, b: nat) {
    b == 0 || b == |lines| || (b < |lines| && StartsUnit(kind, lines, b))
  }

  predicate StrictlySorted(bs: seq<nat>) {
    forall i, j :: 0 <= i < j < |bs| ==> bs[i] < bs[j]
  }

  /**
   * find_code_semantic_boundaries and find_text_semantic_boundaries. The list comes
   * out sorted and without repetitions, so the closing sorted(list(set(...))) is the identity.
   */
  method FindSemanticBoundaries(kind: Kind, lines: seq<string>) returns (boundaries: seq<nat>)
    ensures StrictlySorted(boundaries)
    ensures forall b: nat :: b in boundaries <==> IsBoundary(kind, lines, b)
    ensures boundaries != [] && boundaries[0] == 0 && boundaries[|boundaries| - 1] == |lines|
  {
    boundaries := [0];
    var total := |lines|;
    if total == 0 {
      return;
    }
    for i := 1 to total
      invariant boundaries != [] && boundaries[0] == 0
      invariant StrictlySorted(boundaries)
      invariant forall j :: 0 <= j < |boundaries| ==> boundaries[j] < i
      invariant forall b: nat :: b in boundaries <==> b < i && IsBoundary(kind, lines, b)
    {
      if StartsUnit(kind, lines, i) {
        boundaries := boundaries + [i];
      }
    }
    boundaries := boundaries + [total];
  }

  // ----------------------------------------------------------------- cost

  /** Characters of the first `k` lines, eight more per line for its number. */
  function Cost(lines: seq<string>, k: nat): nat
    requires k <= |lines|
  {
    if k == 0 then 0 else Cost(lines, k - 1) + |lines[k - 1]| + 8
  }

  lemma {:induction false} CostIncreases(lines: seq<string>, i: nat, j: nat)
    requires i < j <= |lines|
    ensures Cost(lines, i) + 8 <= Cost(lines, j)
  {
    if i < j - 1 {
      CostIncreases(lines, i, j - 1);
    }
  }

  /** The budget in characters: int(max(10, max_tokens - reserved) * 3.5). */
  function MaxChars(maxTokens: int, reserved: int): nat {
    (if maxTokens - reserved > 10 then maxTokens - reserved else 10) * 7 / 2
  }

  ghost predicate Fits(kind: Kind, lines: seq<string>, budget: nat, b: nat) {
    0 < b <= |lines| && IsBoundary(kind, lines, b) && Cost(lines, b) <= budget
  }

  /** The cut the source documents: the largest boundary that fits, else as many whole lines as fit, at least one. */
  ghost predicate IsCut(kind: Kind, lines: seq<string>, budget: nat, k: nat) {
    if lines == [] then k == 0
    else if exists b: nat :: Fits(kind, lines, budget, b) then
      Fits(kind, lines, budget, k) && forall b: nat :: Fits(kind, lines, budget, b) ==> b <= k
    else
      && 1 <= k <= |lines|
      && (k == 1 || Cost(lines, k) <= budget)
      && (k < |lines| ==> Cost(lines, k + 1) > budget)
  }

  /** There is only one such cut. */
  lemma CutIsUnique(kind: Kind, lines: seq<string>, budget: nat, k: nat, m: nat)
    requires IsCut(kind, lines, budget, k) && IsCut(kind, lines, budget, m)
    ensures k == m
  {
    if lines != [] && !(exists b: nat :: Fits(kind, lines, budget, b)) {
      NoLaterLineFits(lines, budget, k, m);
      NoLaterLineFits(lines, budget, m, k);
    }
  }

  lemma NoLaterLineFits(lines: seq<string>, budget: nat, k: nat, m: nat)
    requires 1 <= k <= |lines| && 1 <= m <= |lines|
    requires k < |lines| ==> Cost(lines, k + 1) > budget
    requires m == 1 || Cost(lines, m) <= budget
    ensures m <= k
  {
    if k + 1 < m {
      CostIncreases(lines, k + 1, m);
    }
  }

  /** What a cut keeps, in one line: it is never empty, and over budget only if it is a single line. */
  lemma CutMeaning(kind: Kind, lines: seq<string>, budget: nat, k: nat)
    requires IsCut(kind, lines, budget, k) && lines != []
    ensures 1 <= k <= |lines| && (k == 1 || Cost(lines, k) <= budget)
    ensures Cost(lines, |lines|) <= budget ==> k == |lines|
  {
    if Cost(lines, |lines|) <= budget {
      assert Fits(kind, lines, budget, |lines|);
    }
  }

  /** The last boundary that fits, if there is one, and else as many lines as fit, but one in any case. */
  lemma CutIsLargest(kind: Kind, lines: seq<string>, budget: nat, k: nat)
    requires IsCut(kind, lines, budget, k)
    ensures k <= |lines|
    ensures forall b :: 0 < b <= |lines| && IsBoundary(kind, lines, b) && Cost(lines, b) <= budget ==>
              b <= k && IsBoundary(kind, lines, k) && Cost(lines, k) <= budget
    ensures k < |lines| && (forall b :: 0 < b <= |lines| && IsBoundary(kind, lines, b) ==> Cost(lines, b) > budget) ==>
              Cost(lines, k + 1) > budget
  {
    forall b | 0 < b <= |lines| && IsBoundary(kind, lines, b) && Cost(lines, b) <= budget
      ensures b <= k && IsBoundary(kind, lines, k) && Cost(lines, k) <= budget
    {
      assert Fits(kind, lines, budget, b);
    }
  }

  // ------------------------------------------- the same on the characters

  /** `c` is the first character of `s` that is not white space. */
  predicate FirstVisible(s: string, c: char) {
    exists i :: 0 <= i < |s| && s[i] == c && !IsSpace(c) && forall j :: 0 <= j < i ==> IsSpace(s[j])
  }

  predicate LastVisible(s: string, c: char) {
    exists i :: 0 <= i < |s| && s[i] == c && !IsSpace(c) && forall j :: i < j < |s| ==> IsSpace(s[j])
  }

  predicate AllBlank(s: string) {
    forall i :: 0 <= i < |s| ==> IsSpace(s[i])
  }

  /** str.strip() takes white space off both ends, and nothing else. */
  lemma StripMeans(s: string) returns (i: nat, j: nat)
    ensures i <= j <= |s| && Strip(s) == s[i..j] && AllBlank(s[..i]) && AllBlank(s[j..])
    ensures i == j <==> AllBlank(s)
    ensures i < j ==> !IsSpace(s[i]) && !IsSpace(s[j - 1])
  {
    i := LStripMeans(s);
    var k := RStripMeans(s[i..]);
    j := i + k;
    assert s[i..][..k] == s[i..j] && s[i..][k..] == s[j..];
    if i < |s| {
      assert !IsSpace(s[i]) && !IsSpace(s[i..][0]);
      assert k > 0 ==> s[i..][k - 1] == s[j - 1];
    } else {
      assert s[..i] == s;
    }
  }

  lemma {:induction false} LStripMeans(s: string) returns (i: nat)
    ensures i <= |s| && LStrip(s) == s[i..] && AllBlank(s[..i]) && (i < |s| ==> !IsSpace(s[i]))
  {
    if s != "" && IsSpace(s[0]) {
      var k := LStripMeans(s[1..]);
      i := k + 1;
      assert s[1..][k..] == s[i..] && s[..i] == [s[0]] + s[1..][..k];
      assert k < |s[1..]| ==> s[1..][k] == s[i];
    } else {
      i := 0;
    }
  }

  lemma {:induction false} RStripMeans(s: string) returns (j: nat)
    ensures j <= |s| && RStrip(s) == s[..j] && AllBlank(s[j..]) && (j > 0 ==> !IsSpace(s[j - 1]))
    ensures j == 0 <==> AllBlank(s)
  {
    if s != "" && IsSpace(s[|s| - 1]) {
      var init := s[..|s| - 1];
      j := RStripMeans(init);
      assert init[..j] == s[..j] && s[j..] == init[j..] + [s[|s| - 1]];
      assert s == init + [s[|s| - 1]];
    } else {
      j := |s|;
      assert s != "" ==> !IsSpace(s[|s| - 1]);
    }
  }

  lemma StripEnds(s: string, c: char)
    ensures Strip(s) == "" <==> AllBlank(s)
    ensures Strip(s) != "" ==> (Strip(s)[0] == c <==> FirstVisible(s, c))
    ensures Strip(s) != "" ==> (Strip(s)[|Strip(s)| - 1] == c <==> LastVisible(s, c))
  {
    var i, j := StripMeans(s);
    assert forall k :: 0 <= k < i ==> s[..i][k] == s[k];
    assert forall k :: j <= k < |s| ==> s[j..][k - j] == s[k];
    if i < j {
      assert Strip(s)[0] == s[i] && Strip(s)[j - i - 1] == s[j - 1];
    }
  }

  /** Text may be cut before a heading, after a blank line, and after a line that ends a sentence. */
  lemma TextBoundaryMeans(lines: seq<string>, b: nat)
    requires 0 < b < |lines|
    ensures IsBoundary(Text, lines, b) <==>
              || FirstVisible(lines[b], '#')
              || (AllBlank(lines[b - 1]) && !AllBlank(lines[b]))
              || LastVisible(lines[b - 1], '.') || LastVisible(lines[b - 1], '!') || LastVisible(lines[b - 1], '?')
  {
    StripEnds(lines[b], '#');
    StripEnds(lines[b - 1], '.');
    StripEnds(lines[b - 1], '!');
    StripEnds(lines[b - 1], '?');
  }

  /** Code may be cut before a definition, and where an unindented line follows a blank one. */
  lemma CodeBoundaryMeans(isDefinition: string -> bool, lines: seq<string>, b: nat)
    requires 0 < b < |lines|
    ensures IsBoundary(Code(isDefinition), lines, b) <==>
              || isDefinition(lines[b])
              || (AllBlank(lines[b - 1]) && !AllBlank(lines[b]) && lines[b][0] != ' ' && lines[b][0] != '\t')
  {
    StripEnds(lines[b], '#');
    StripEnds(lines[b - 1], '#');
  }

  /** The cost of lines is the length of their text, and eight characters for each. */
  lemma {:induction false} CostMeans(lines: seq<string>, k: nat)
    requires k <= |lines|
    ensures Cost(lines, k) == |Join(lines[..k], "")| + 8 * k
  {
    if k > 0 {
      CostMeans(lines, k - 1);
      assert lines[..k] == lines[..k - 1] + [lines[k - 1]];
      JoinConcat(lines[..k - 1], [lines[k - 1]]);
    }
  }

  /** Three and a half characters for each token that is left after the reserve, rounded down; ten tokens at least. */
  lemma MaxCharsMeans(maxTokens: int, reserved: int)
    ensures var tokens := maxTokens - reserved; var chars := MaxChars(maxTokens, reserved);
            && (tokens >= 10 ==> 2 * chars <= 7 * tokens < 2 * chars + 2)
            && (tokens <= 10 ==> chars == 35)
  {}

  /** Reserving tokens takes three and a half characters each from the budget, down to the least budget. */
  lemma ReservingCosts(maxTokens: int, reserved: int, more: nat)
    ensures MaxChars(maxTokens, reserved + more) <= MaxChars(maxTokens, reserved)
    ensures maxTokens - reserved - 2 * more >= 10 ==>
              MaxChars(maxTokens, reserved + 2 * more) == MaxChars(maxTokens, reserved) - 7 * more
  {}

  // ------------------------------------------------ truncate_semantically

  /**
   * truncate_semantically: the quick check, the boundary scan with its early
   * break, and the line-by-line fallback.
   */
  method TruncateSemantically(lines: seq<string>, maxTokens: int, kind: Kind, reserved: int)
      returns (selected: seq<string>, count: nat, wasTruncated: bool)
    ensures IsCut(kind, lines, MaxChars(maxTokens, reserved), count)
    ensures count <= |lines| && selected == lines[..count] && wasTruncated == (count < |lines|)
  {
    var total := |lines|;
    if total == 0 {
      return [], 0, false;
    }
    var maxChars := MaxChars(maxTokens, reserved);
    var totalChars := Cost(lines, total);
    if totalChars <= maxChars {
      assert Fits(kind, lines, maxChars, total);
      return lines, total, false;
    }
    var boundaries := FindSemanticBoundaries(kind, lines);
    var best := LargestFitting(lines, kind, boundaries, maxChars);
    if best == 0 {
      best := CutByLines(lines, maxChars);
    }
    count := best;
    selected := lines[..count];
    wasTruncated := count < total;
  }

  method LargestFitting(lines: seq<string>, kind: Kind, boundaries: seq<nat>, maxChars: nat) returns (best: nat)
    requires StrictlySorted(boundaries)
    requires forall b: nat :: b in boundaries <==> IsBoundary(kind, lines, b)
    requires forall b: nat :: b in boundaries ==> b <= |lines|
    ensures best == 0 ==> forall b: nat :: !Fits(kind, lines, maxChars, b)
    ensures best != 0 ==> Fits(kind, lines, maxChars, best)
                          && forall b: nat :: Fits(kind, lines, maxChars, b) ==> b <= best
  {
    best := 0;
    for k := 0 to |boundaries|
      invariant best == 0 || Fits(kind, lines, maxChars, best)
      invariant forall j :: 0 <= j < k ==> boundaries[j] <= best
    {
      var b := boundaries[k];
      if b != 0 {
        assert b in boundaries;
        if Cost(lines, b) <= maxChars {
          best := b;
        } else {
          forall c: nat | Fits(kind, lines, maxChars, c) ensures c <= best {
            if c > b {
              CostIncreases(lines, b, c);
            }
            var j :| 0 <= j < |boundaries| && boundaries[j] == c;
          }
          return;
        }
      }
    }
    forall c: nat | Fits(kind, lines, maxChars, c) ensures c <= best {
      var j :| 0 <= j < |boundaries| && boundaries[j] == c;
    }
  }

  method CutByLines(lines: seq<string>, maxChars: nat) returns (best: nat)
    requires lines != []
    ensures 1 <= best <= |lines|
    ensures best == 1 || Cost(lines, best) <= maxChars
    ensures best < |lines| ==> Cost(lines, best + 1) > maxChars
  {
    best := 0;
    var accumulated := 0;
    for idx := 0 to |lines|
      invariant best == idx && accumulated == Cost(lines, idx)
      invariant best <= 1 || Cost(lines, best) <= maxChars
    {
      var lineLen := |lines[idx]| + 8;
      if accumulated + lineLen > maxChars && best > 0 {
        return;
      }
      accumulated := accumulated + lineLen;
      best := idx + 1;
    }
  }

  // ----------------------------------------------------- numbered content

  function PadLeft(s: string, width: nat): (r: string)
    ensures |r| == if |s| < width then width else |s|
    decreases width - |s|
  {
    if |s| < width then PadLeft(" " + s, width) else s
  }

  /** The prefix f"{n:4d} | " of line number `n`. */
  function LineNumber(n: nat): string {
    PadLeft(Digits(n), 4) + " | "
  }

  function Numbered(first: nat, lines: seq<string>): string {
    if lines == [] then ""
    else Numbered(first, lines[..|lines| - 1]) + LineNumber(first + |lines| - 1) + lines[|lines| - 1]
  }

  /** Eight characters are enough for a line number exactly up to line 99999. */
  lemma LineNumberFits(n: nat)
    ensures |LineNumber(n)| <= 8 <==> n < 100000
  {
    assert |Digits(n)| == 1 + (if n < 10 then 0 else |Digits(n / 10)|);
    assert |Digits(n / 10)| == 1 + (if n / 10 < 10 then 0 else |Digits(n / 10 / 10)|);
    assert |Digits(n / 100)| == 1 + (if n / 100 < 10 then 0 else |Digits(n / 100 / 10)|);
    assert |Digits(n / 1000)| == 1 + (if n / 1000 < 10 then 0 else |Digits(n / 1000 / 10)|);
    assert |Digits(n / 10000)| == 1 + (if n / 10000 < 10 then 0 else |Digits(n / 10000 / 10)|);
    assert n / 10 / 10 == n / 100 && n / 100 / 10 == n / 1000 && n / 1000 / 10 == n / 10000;
  }

  /** What the numbers of `k` lines from `first` on take beyond eight characters each; numbers below 10000 take less. */
  function Surplus(first: nat, k: nat): int {
    if k == 0 then 0 else Surplus(first, k - 1) + |LineNumber(first + k - 1)| - 8
  }

  /** The numbered text of a prefix is as long as its cost, give or take the surplus of its numbers. */
  lemma {:induction false} NumberedLength(first: nat, lines: seq<string>, k: nat)
    requires k <= |lines|
    ensures |Numbered(first, lines[..k])| == Cost(lines, k) + Surplus(first, k)
  {
    if k > 0 {
      NumberedLength(first, lines, k - 1);
      assert lines[..k][..k - 1] == lines[..k - 1];
    }
  }

  lemma LineNumberLength(n: nat)
    requires n < 1000000
    ensures |LineNumber(n)| == if n < 10000 then 7 else if n < 100000 then 8 else 9
  {
    LineNumberFits(n);
    LineNumberFits(n / 10);
    assert |Digits(n)| == 1 + (if n < 10 then 0 else |Digits(n / 10)|);
    assert |Digits(n / 10)| == 1 + (if n / 10 < 10 then 0 else |Digits(n / 10 / 10)|);
    assert |Digits(n / 100)| == 1 + (if n / 100 < 10 then 0 else |Digits(n / 100 / 10)|);
    assert |Digits(n / 1000)| == 1 + (if n / 1000 < 10 then 0 else |Digits(n / 1000 / 10)|);
    assert n / 10 / 10 == n / 100 && n / 100 / 10 == n / 1000;
  }

  function Clip(x: int): nat { if x < 0 then 0 else x }

  /** Below a million: the lines from 100000 on, less the lines below 10000. */
  lemma {:induction false} SurplusCounts(first: nat, k: nat)
    requires first + k <= 1000000
    ensures Surplus(first, k) ==
            (Clip(first + k - 100000) - Clip(first - 100000)) - (Clip(10000 - first) - Clip(10000 - first - k))
  {
    if k > 0 {
      SurplusCounts(first, k - 1);
      LineNumberLength(first + k - 1);
    }
  }

  /** Up to line 99999 there is no surplus. */
  lemma {:induction false} NoSurplus(first: nat, k: nat)
    requires first + k <= 100000
    ensures Surplus(first, k) <= 0
  {
    if k > 0 {
      NoSurplus(first, k - 1);
      LineNumberFits(first + k - 1);
    }
  }

  /**
   * The promise of the docstring, that content plus line numbers stay within the budget but for a lone
   * line: kept exactly when the surplus of the numbers fits beside the cost, and so up to line 99999.
   */
  lemma NumberedWithinBudget(kind: Kind, first: nat, lines: seq<string>, budget: nat, k: nat)
    requires IsCut(kind, lines, budget, k)
    ensures k <= |lines|
    ensures |Numbered(first, lines[..k])| <= budget <==> Cost(lines, k) + Surplus(first, k) <= budget
    ensures |Numbered(first, lines[..k])| <= Cost(lines, k) <==> Surplus(first, k) <= 0
    ensures k != 1 && (Surplus(first, k) <= 0 || first + k <= 100000) ==> |Numbered(first, lines[..k])| <= budget
  {
    if lines != [] {
      CutMeaning(kind, lines, budget, k);
    }
    NumberedLength(first, lines, k);
    if first + k <= 100000 {
      NoSurplus(first, k);
    }
  }

  lemma {:induction false} EmptyLinesCost(lines: seq<string>, n: nat)
    requires n <= |lines| && forall k :: 0 <= k < |lines| ==> lines[k] == ""
    ensures Cost(lines, n) == 8 * n
  {
    if n > 0 {
      EmptyLinesCost(lines, n - 1);
    }
  }

  /** A budget of twelve tokens, and five empty lines from line 100000 on that fit it and exceed it once numbered. */
  lemma BudgetExceeded(kind: Kind) returns (lines: seq<string>, budget: nat)
    ensures budget == MaxChars(12, 0) && IsCut(kind, lines, budget, 5) && |lines| == 5
    ensures |Numbered(100000, lines)| > budget
  {
    budget := MaxChars(12, 0);
    lines := ["", "", "", "", ""];
    EmptyLinesCost(lines, 5);
    assert Fits(kind, lines, budget, 5);
    NumberedLength(100000, lines, 5);
    SurplusCounts(100000, 5);
    assert lines[..5] == lines;
  }
}
