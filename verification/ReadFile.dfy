/**
 * The window logic of RepositoryToolLayer.read_file (backend/repository_tools/tools.py),
 * on the lines of a file that has been found and split.
 */
module ReadFile {
  import opened Basics
  import opened Truncation

  /** The part of a call that does not change from page to page. */
  datatype Source = Source(kind: Kind, lines: seq<string>, safeLimit: nat)

  /** The token arguments of one call: max_content_tokens and control_reservation_tokens. */
  datatype Budget = Budget(maxContentTokens: Option<int>, reserved: int)

  datatype ReadResult =
    | ContextOverflow(total: nat)
    | InvalidRange(total: nat)
    | Window(start: int, end: int, requestedStart: int, requestedEnd: int,
             selected: seq<string>, isTruncated: bool, nextStart: Option<int>, remaining: int)

  /** `lines[lo:hi]` of Python, where a negative `hi` counts from the end. */
  function Slice(lines: seq<string>, lo: nat, hi: int): (r: seq<string>) {
    var h := if hi < 0 then (if |lines| + hi < 0 then 0 else |lines| + hi)
             else if hi > |lines| then |lines| else hi;
    if lo < h then lines[lo..h] else []
  }

  function Min(a: int, b: int): int { if a < b then a else b }

  function Max(a: int, b: int): int { if a > b then a else b }

  function BudgetChars(b: Budget): nat {
    MaxChars(if b.maxContentTokens.Some? && b.maxContentTokens.value > 0 then b.maxContentTokens.value else 2500,
             b.reserved)
  }

  lemma CutExists(kind: Kind, lines: seq<string>, budget: nat)
    ensures exists k: nat :: IsCut(kind, lines, budget, k)
  {
    if lines == [] {
      assert IsCut(kind, lines, budget, 0);
    } else if exists b: nat :: Fits(kind, lines, budget, b) {
      var b: nat :| Fits(kind, lines, budget, b);
      var k := LargestFit(kind, lines, budget, b);
      assert IsCut(kind, lines, budget, k);
    } else {
      MostLines(kind, lines, budget, 1);
    }
  }

  lemma LargestFit(kind: Kind, lines: seq<string>, budget: nat, b: nat) returns (k: nat)
    requires Fits(kind, lines, budget, b)
    ensures Fits(kind, lines, budget, k) && forall c: nat :: Fits(kind, lines, budget, c) ==> c <= k
    decreases |lines| - b
  {
    if exists c: nat :: Fits(kind, lines, budget, c) && c > b {
      var c: nat :| Fits(kind, lines, budget, c) && c > b;
      k := LargestFit(kind, lines, budget, c);
    } else {
      k := b;
    }
  }

  lemma MostLines(kind: Kind, lines: seq<string>, budget: nat, k: nat)
    requires lines != [] && !(exists b: nat :: Fits(kind, lines, budget, b))
    requires 1 <= k <= |lines| && (k == 1 || Cost(lines, k) <= budget)
    ensures exists m: nat :: IsCut(kind, lines, budget, m)
    decreases |lines| - k
  {
    if k < |lines| && Cost(lines, k + 1) <= budget {
      MostLines(kind, lines, budget, k + 1);
    } else {
      assert IsCut(kind, lines, budget, k);
    }
  }

  /** How many lines truncate_semantically keeps. */
  ghost function Kept(kind: Kind, lines: seq<string>, budget: nat): (k: nat)
    ensures IsCut(kind, lines, budget, k) && k <= |lines|
    ensures lines != [] ==> 1 <= k
  {
    CutExists(kind, lines, budget);
    var k: nat :| IsCut(kind, lines, budget, k);
    if lines != [] then CutMeaning(kind, lines, budget, k); k else k
  }

  /** The end of the window before context lines: the request, at most safe_limit lines of it. */
  function TargetEnd(requestedStart: int, requestedEnd: int, safeLimit: nat): int {
    if requestedEnd - requestedStart + 1 > safeLimit then requestedStart + safeLimit - 1 else requestedEnd
  }

  /** A call is refused, or granted lines first..last, of which the window s..e up to `target` is looked at. */
  datatype Request =
    | Refusal(reply: ReadResult)
    | Granted(first: int, last: int, target: int, s: int, e: int)

  /** The request a call makes. An argument of 0 counts as absent. */
  function RequestOf(src: Source, startArg: int, endArg: Option<int>, contextArg: int): Request {
    var total := |src.lines|;
    var start0 := if startArg != 0 then startArg else 1;
    var end0 := if endArg.Some? && endArg.value == 0 then None else endArg;
    if end0.None? && total > src.safeLimit then Refusal(ContextOverflow(total))
    else
      var start := if end0.Some? then Min(start0, end0.value) else start0;
      if start > total then Refusal(InvalidRange(total))
      else
        var first := Max(1, start);
        var last := if end0.Some? then Min(total, Max(start0, end0.value))
                    else Min(total, first + src.safeLimit - 1);
        var target := TargetEnd(first, last, src.safeLimit);
        if contextArg > 0 then Granted(first, last, target, Max(1, first - contextArg), Min(total, target + contextArg))
        else Granted(first, last, target, first, target)
  }

  /** What a call returns. */
  ghost function ReadWindow(src: Source, startArg: int, endArg: Option<int>, contextArg: int, b: Budget): ReadResult {
    match RequestOf(src, startArg, endArg, contextArg)
    case Refusal(reply) => reply
    case Granted(first, last, target, s, e) =>
      var slice := Slice(src.lines, if s > 0 then s - 1 else 0, e);
      Report(first, last, target, s, e, slice, Kept(src.kind, slice, BudgetChars(b)))
  }

  /** The returned fields, from the request, the clamped target, the window s..e and the lines kept of it. */
  function Report(first: int, last: int, target: int, s: int, e: int, slice: seq<string>, count: nat): ReadResult
    requires count <= |slice|
  {
    var actual := s + count - 1;
    Window(s, actual, first, last, slice[..count],
           (count < |slice| && actual < e) || target < last,
           if actual < last then Some(actual + 1) else None,
           if actual < last then last - actual else 0)
  }

  /** read_file, with its variables reassigned as in the source. */
  method Read(src: Source, startArg: int, endArg: Option<int>, contextArg: int, b: Budget) returns (r: ReadResult)
    ensures r == ReadWindow(src, startArg, endArg, contextArg, b)
  {
    var request, rangeClamped := ResolveRequest(src, startArg, endArg, contextArg);
    if request.Refusal? {
      return request.reply;
    }
    var slice := Slice(src.lines, request.s - 1, request.e);
    var selected, count, wasClamped := TruncateSlice(src.kind, slice, b);
    r := ReportFields(request.first, request.last, request.target, rangeClamped, request.s, request.e,
                      slice, selected, count, wasClamped);
  }

  method TruncateSlice(kind: Kind, slice: seq<string>, b: Budget) returns (selected: seq<string>, count: nat, wasClamped: bool)
    ensures count == Kept(kind, slice, BudgetChars(b)) <= |slice| && selected == slice[..count]
    ensures wasClamped == (count < |slice|)
  {
    var budget := if b.maxContentTokens.Some? && b.maxContentTokens.value > 0 then b.maxContentTokens.value else 2500;
    selected, count, wasClamped := TruncateSemantically(slice, budget, kind, b.reserved);
    CutIsUnique(kind, slice, BudgetChars(b), count, Kept(kind, slice, BudgetChars(b)));
  }

  /** The checks and the clamping before anything is read. */
  method ResolveRequest(src: Source, startArg: int, endArg: Option<int>, contextArg: int)
      returns (request: Request, rangeClamped: bool)
    ensures request == RequestOf(src, startArg, endArg, contextArg)
    ensures request.Granted? ==> request.s >= 1 && rangeClamped == (request.target < request.last)
  {
    var startLine := if startArg != 0 then startArg else 1;
    var endLine := if endArg.Some? && endArg.value == 0 then None else endArg;
    var contextLines := Max(0, contextArg);
    var total := |src.lines|;
    if endLine.None? && total > src.safeLimit {
      return Refusal(ContextOverflow(total)), false;
    }
    if endLine.Some? && endLine.value < startLine {
      startLine, endLine := endLine.value, Some(startLine);
    }
    if startLine > total {
      return Refusal(InvalidRange(total)), false;
    }
    request, rangeClamped := GrantRequest(startLine, endLine, contextLines, total, src.safeLimit);
  }

  method GrantRequest(startLine: int, endLine: Option<int>, contextLines: nat, total: nat, safeLimit: nat)
      returns (request: Request, rangeClamped: bool)
    ensures var first := Max(1, startLine);
            var last := if endLine.Some? then Min(total, endLine.value) else Min(total, first + safeLimit - 1);
            var target := TargetEnd(first, last, safeLimit);
            && rangeClamped == (target < last)
            && request == if contextLines > 0
                          then Granted(first, last, target, Max(1, first - contextLines), Min(total, target + contextLines))
                          else Granted(first, last, target, first, target)
  {
    var first := Max(1, startLine);
    var last := if endLine.Some? then Min(total, endLine.value) else Min(total, first + safeLimit - 1);
    var target := last;
    rangeClamped := false;
    if last - first + 1 > safeLimit {
      target := first + safeLimit - 1;
      rangeClamped := true;
    }
    var s, e := first, target;
    if contextLines > 0 {
      s := Max(1, s - contextLines);
      e := Min(total, e + contextLines);
    }
    request := Granted(first, last, target, s, e);
  }

  method ReportFields(first: int, last: int, target: int, rangeClamped: bool, s: int, e: int,
                      ghost slice: seq<string>, selected: seq<string>, count: nat, wasClamped: bool)
      returns (r: ReadResult)
    requires count <= |slice| && selected == slice[..count] && wasClamped == (count < |slice|)
    requires rangeClamped == (target < last)
    ensures r == Report(first, last, target, s, e, slice, count)
  {
    var actual := s + count - 1;
    var isTruncated := (wasClamped && actual < e) || (rangeClamped && target < last);
    var remaining := if actual < last then last - actual else 0;
    var next := if actual < last then Some(actual + 1) else None;
    r := Window(s, actual, first, last, selected, isTruncated, next, remaining);
  }

  // ------------------------------------------------------------ one window

  /** A window that returns what it says and knows what is left. */
  predicate IsPage(lines: seq<string>, w: ReadResult) {
    && w.Window? && 1 <= w.requestedStart == w.start <= w.end <= w.requestedEnd <= |lines|
    && w.selected == lines[w.start - 1..w.end]
    && w.nextStart == (if w.end < w.requestedEnd then Some(w.end + 1) else None)
  }

  lemma RequestWithoutContext(src: Source, startArg: int, endArg: Option<int>, contextArg: int)
    requires contextArg <= 0 && src.safeLimit >= 1
    ensures var q := RequestOf(src, startArg, endArg, contextArg);
            q.Granted? ==>
              && 1 <= q.first == q.s && q.last <= |src.lines| && q.e == q.target
              && q.target == (if q.last - q.first + 1 > src.safeLimit then q.first + src.safeLimit - 1 else q.last)
  {}

  lemma ReportWithoutContext(lines: seq<string>, first: int, last: int, target: int, count: nat)
    requires 1 <= first && last <= |lines| && target <= last && (first <= last ==> first <= target)
    requires target < last ==> first <= last
    requires var slice := Slice(lines, first - 1, target); count <= |slice| && (slice != [] ==> 1 <= count)
    ensures var w := Report(first, last, target, first, target, Slice(lines, first - 1, target), count);
            && (w.isTruncated <==> w.nextStart.Some?)
            && (first <= last ==> IsPage(lines, w) && w.remaining == w.requestedEnd - w.end)
  {
    if first <= last {
      assert Slice(lines, first - 1, target) == lines[first - 1..target];
      assert lines[first - 1..target][..count] == lines[first - 1..first + count - 1];
    }
  }

  /** A call without context lines returns exactly the lines it says, and says exactly what is left. */
  lemma WindowWithoutContext(src: Source, startArg: int, endArg: Option<int>, contextArg: int, b: Budget)
    requires contextArg <= 0 && src.safeLimit >= 1
    requires ReadWindow(src, startArg, endArg, contextArg, b).Window?
    ensures var w := ReadWindow(src, startArg, endArg, contextArg, b);
            && (w.isTruncated <==> w.nextStart.Some?)
            && (w.requestedStart <= w.requestedEnd ==> IsPage(src.lines, w) && w.remaining == w.requestedEnd - w.end)
    ensures var w, q := ReadWindow(src, startArg, endArg, contextArg, b), RequestOf(src, startArg, endArg, contextArg);
            q.Granted? && w.requestedStart == q.first && w.requestedEnd == q.last
  {
    RequestWithoutContext(src, startArg, endArg, contextArg);
    var q := RequestOf(src, startArg, endArg, contextArg);
    var slice := Slice(src.lines, q.first - 1, q.target);
    ReportWithoutContext(src.lines, q.first, q.last, q.target, Kept(src.kind, slice, BudgetChars(b)));
  }

  /** Which calls are refused, and which windows are of an empty request. */
  lemma ReadKinds(src: Source, startArg: int, endArg: Option<int>, contextArg: int, b: Budget)
    requires src.safeLimit >= 1
    ensures var r := ReadWindow(src, startArg, endArg, contextArg, b);
            && (r.ContextOverflow? <==> endArg in {None, Some(0)} && |src.lines| > src.safeLimit)
            && (r.Window? ==> (r.requestedStart > r.requestedEnd <==>
                  |src.lines| == 0 || (startArg < 0 && endArg.Some? && endArg.value < 0)))
            && (r.InvalidRange? <==>
                  var start := if startArg == 0 then 1 else startArg;
                  if endArg in {None, Some(0)} then |src.lines| < start && |src.lines| <= src.safeLimit
                  else |src.lines| < start && |src.lines| < endArg.value)
            && (!r.Window? ==> r.total == |src.lines|)
  {}

  /** Line `i` lies between the two arguments, in either order; without an end line, at or after the start line. */
  predicate IsAskedFor(startArg: int, endArg: Option<int>, i: int) {
    var start := if startArg == 0 then 1 else startArg;
    if endArg.None? || endArg.value == 0 then start <= i
    else start <= i <= endArg.value || endArg.value <= i <= start
  }

  /** What a granted call asks for: the lines of the file between its arguments, to the end without an end line. */
  lemma RequestedLines(src: Source, startArg: int, endArg: Option<int>, contextArg: int, b: Budget)
    requires ReadWindow(src, startArg, endArg, contextArg, b).Window?
    ensures var w := ReadWindow(src, startArg, endArg, contextArg, b);
            var start := if startArg == 0 then 1 else startArg;
            && (endArg.None? || endArg.value == 0 ==>
                  w.requestedStart == (if start < 1 then 1 else start) && w.requestedEnd == |src.lines|)
            && (endArg.Some? && endArg.value != 0 ==>
                  var low := if start <= endArg.value then start else endArg.value;
                  var high := if start <= endArg.value then endArg.value else start;
                  && w.requestedStart == (if low < 1 then 1 else low)
                  && w.requestedEnd == (if high > |src.lines| then |src.lines| else high))
            && forall i :: w.requestedStart <= i <= w.requestedEnd <==> 1 <= i <= |src.lines| && IsAskedFor(startArg, endArg, i)
  {}

  /** The last line looked at: the end of the request, at most safe_limit lines of it, and the context after it. */
  function Reach(src: Source, first: int, last: int, contextArg: int): int {
    var target := if last - first + 1 > src.safeLimit then first + src.safeLimit - 1 else last;
    if contextArg <= 0 then target
    else if target + contextArg > |src.lines| then |src.lines| else target + contextArg
  }

  /**
   * The window of a request that is not empty: it starts at the first line asked for, or as many context
   * lines before it as there are, and holds what truncation keeps of the lines up to its reach.
   */
  ghost predicate WindowAccount(src: Source, contextArg: int, b: Budget, w: ReadResult) {
    w.Window? &&
    var first, last := w.requestedStart, w.requestedEnd;
    var reach := Reach(src, first, last, contextArg);
    var tokens := if b.maxContentTokens.Some? && b.maxContentTokens.value > 0 then b.maxContentTokens.value else 2500;
    && w.start == (if contextArg <= 0 then first else if first - contextArg < 1 then 1 else first - contextArg)
    && 1 <= w.start <= w.end <= reach <= |src.lines|
    && w.selected == src.lines[w.start - 1..w.end]
    && w.end - w.start + 1 == Kept(src.kind, src.lines[w.start - 1..reach], MaxChars(tokens, b.reserved))
    && (w.isTruncated <==> w.end < reach || last - first + 1 > src.safeLimit)
    && w.nextStart == (if w.end < last then Some(w.end + 1) else None)
    && w.remaining == (if w.end < last then last - w.end else 0)
  }

  lemma WindowMeans(src: Source, startArg: int, endArg: Option<int>, contextArg: int, b: Budget, w: ReadResult)
    requires src.safeLimit >= 1 && w == ReadWindow(src, startArg, endArg, contextArg, b)
    requires w.Window? && w.requestedStart <= w.requestedEnd
    ensures WindowAccount(src, contextArg, b, w)
  {
    WindowIs(src, startArg, endArg, contextArg, b);
    GrantedMeans(src, startArg, endArg, contextArg);
    var q := RequestOf(src, startArg, endArg, contextArg);
    ReportAccount(src, q, contextArg, b);
  }

  lemma ReportAccount(src: Source, q: Request, contextArg: int, b: Budget)
    requires IsGranted(src, q, contextArg)
    ensures WindowAccount(src, contextArg, b, ReportOf(src, q, BudgetChars(b)))
  {
    ReportMeans(src, q, BudgetChars(b));
  }

  predicate IsGranted(src: Source, q: Request, contextArg: int) {
    && q.Granted? && 1 <= q.s <= q.first <= q.target <= q.last <= |src.lines| && q.target <= q.e <= |src.lines|
    && q.s == (if contextArg <= 0 then q.first else if q.first - contextArg < 1 then 1 else q.first - contextArg)
    && q.e == Reach(src, q.first, q.last, contextArg)
    && (q.target < q.last <==> q.last - q.first + 1 > src.safeLimit)
  }

  lemma WindowIs(src: Source, startArg: int, endArg: Option<int>, contextArg: int, b: Budget)
    requires ReadWindow(src, startArg, endArg, contextArg, b).Window?
    ensures var w, q := ReadWindow(src, startArg, endArg, contextArg, b), RequestOf(src, startArg, endArg, contextArg);
            && q.Granted? && w.requestedStart == q.first && w.requestedEnd == q.last
            && (1 <= q.s <= q.e <= |src.lines| ==> w == ReportOf(src, q, BudgetChars(b)))
  {
    var q := RequestOf(src, startArg, endArg, contextArg);
    if 1 <= q.s <= q.e <= |src.lines| {
      SliceInside(src.lines, q.s, q.e);
    }
  }

  ghost function ReportOf(src: Source, q: Request, chars: nat): ReadResult
    requires q.Granted? && 1 <= q.s <= q.e <= |src.lines|
  {
    var slice := src.lines[q.s - 1..q.e];
    Report(q.first, q.last, q.target, q.s, q.e, slice, Kept(src.kind, slice, chars))
  }

  lemma GrantedMeans(src: Source, startArg: int, endArg: Option<int>, contextArg: int)
    requires src.safeLimit >= 1 && RequestOf(src, startArg, endArg, contextArg).Granted?
    requires RequestOf(src, startArg, endArg, contextArg).first <= RequestOf(src, startArg, endArg, contextArg).last
    ensures IsGranted(src, RequestOf(src, startArg, endArg, contextArg), contextArg)
  {}

  lemma SliceInside(lines: seq<string>, s: int, e: int)
    requires 1 <= s <= e <= |lines|
    ensures Slice(lines, s - 1, e) == lines[s - 1..e]
  {}

  lemma ReportMeans(src: Source, q: Request, chars: nat)
    requires q.Granted? && 1 <= q.s <= q.first <= q.target <= q.last <= |src.lines| && q.target <= q.e <= |src.lines|
    ensures var w := ReportOf(src, q, chars);
            && w.start == q.s && w.start <= w.end <= q.e && w.selected == src.lines[w.start - 1..w.end]
            && w.end - w.start + 1 == Kept(src.kind, src.lines[w.start - 1..q.e], chars)
            && (w.isTruncated <==> w.end < q.e || q.target < q.last)
            && w.nextStart == (if w.end < q.last then Some(w.end + 1) else None)
            && w.remaining == (if w.end < q.last then q.last - w.end else 0)
  {
    var slice := src.lines[q.s - 1..q.e];
    var k := Kept(src.kind, slice, chars);
    assert slice[..k] == src.lines[q.s - 1..q.s + k - 1];
  }

  /** `is_truncated` says whether `next_start_line` is set. */
  ghost predicate FlagsAgree(src: Source, startArg: int, endArg: Option<int>, contextArg: int, b: Budget) {
    var w := ReadWindow(src, startArg, endArg, contextArg, b);
    w.Window? ==> (w.isTruncated <==> w.nextStart.Some?)
  }

  /** The two fields agree in every call exactly when no context lines are asked for. */
  lemma FlagsAgreeWithoutContext(contextArg: int)
    ensures (forall src: Source, startArg: int, endArg: Option<int>, b: Budget ::
               src.safeLimit >= 1 ==> FlagsAgree(src, startArg, endArg, contextArg, b))
            <==> contextArg <= 0
  {
    if contextArg <= 0 {
      forall src: Source, startArg: int, endArg: Option<int>, b: Budget | src.safeLimit >= 1
        ensures FlagsAgree(src, startArg, endArg, contextArg, b)
      {
        if ReadWindow(src, startArg, endArg, contextArg, b).Window? {
          WindowWithoutContext(src, startArg, endArg, contextArg, b);
        }
      }
    } else {
      var b := Budget(Some(1), 0);
      var long := seq(100, i => 'x');
      var src := Source(Text, [long, long], 1);
      TwoLongLines(src, contextArg, b, long);
      assert !FlagsAgree(src, 1, Some(1), contextArg, b);
    }
  }

  /** Line 1 of two long lines, asked for with context: line 2 is cut off, nothing requested is missing. */
  lemma TwoLongLines(src: Source, contextArg: int, b: Budget, long: string)
    requires contextArg > 0 && |long| == 100 && src == Source(Text, [long, long], 1) && b == Budget(Some(1), 0)
    ensures var w := ReadWindow(src, 1, Some(1), contextArg, b); w.Window? && w.isTruncated && w.nextStart.None?
  {
    var slice := Slice(src.lines, 0, 2);
    assert slice == [long, long];
    assert BudgetChars(b) == 35;
    assert Cost(slice, 2) == Cost(slice, 1) + 108 && Cost(slice, 1) == Cost(slice, 0) + 108;
    var k := Kept(Text, slice, 35);
    CutMeaning(Text, slice, 35, k);
    assert k == 1;
  }

  // -------------------------------------------------------------- paging

  /** read_file(start_line=next_start_line, end_line=requested_end_line). */
  ghost function NextPage(src: Source, w: ReadResult, b: Budget): ReadResult
    requires w.Window? && w.nextStart.Some?
  {
    ReadWindow(src, w.nextStart.value, Some(w.requestedEnd), 0, b)
  }

  lemma NextIsPage(src: Source, w: ReadResult, b: Budget)
    requires src.safeLimit >= 1 && IsPage(src.lines, w) && w.nextStart.Some?
    ensures var v := NextPage(src, w, b);
            IsPage(src.lines, v) && v.start == w.end + 1 && v.requestedEnd == w.requestedEnd && w.end < v.end
  {
    WindowWithoutContext(src, w.end + 1, Some(w.requestedEnd), 0, b);
  }

  ghost predicate Continues(src: Source, w: ReadResult, v: ReadResult, b: Budget) {
    w.Window? && w.nextStart.Some? && v == NextPage(src, w, b)
  }

  /** The first `n` calls each continue where the one before stopped, with any token budgets. */
  ghost predicate IsPaging(src: Source, pages: seq<ReadResult>, budgets: seq<Budget>, n: nat)
    requires 0 < n <= |pages| == |budgets|
  {
    IsPage(src.lines, pages[0]) && forall k :: 0 < k < n ==> Continues(src, pages[k - 1], pages[k], budgets[k])
  }

  /** Page `v` starts on the line after page `w`. */
  predicate Adjoins(lines: seq<string>, w: ReadResult, v: ReadResult) {
    IsPage(lines, w) && IsPage(lines, v) && v.start == w.end + 1 && v.requestedEnd == w.requestedEnd
  }

  predicate Adjacent(lines: seq<string>, pages: seq<ReadResult>, n: nat)
    requires 0 < n <= |pages|
  {
    IsPage(lines, pages[0]) && forall k :: 0 < k < n ==> Adjoins(lines, pages[k - 1], pages[k])
  }

  function Selected(w: ReadResult): seq<string> {
    if w.Window? then w.selected else []
  }

  /** The raw_text fields of the first `n` pages, one after the other. */
  function RawText(pages: seq<ReadResult>, n: nat): string
    requires n <= |pages|
  {
    if n == 0 then "" else RawText(pages, n - 1) + Join(Selected(pages[n - 1]), "")
  }

  /** The lines of the first `n` pages. */
  function AllLines(pages: seq<ReadResult>, n: nat): seq<string>
    requires n <= |pages|
  {
    if n == 0 then [] else AllLines(pages, n - 1) + Selected(pages[n - 1])
  }

  lemma {:induction false} RawTextIsJoin(pages: seq<ReadResult>, n: nat)
    requires n <= |pages|
    ensures RawText(pages, n) == Join(AllLines(pages, n), "")
  {
    if n > 0 {
      RawTextIsJoin(pages, n - 1);
      var text, before, last := RawText(pages, n - 1), AllLines(pages, n - 1), Selected(pages[n - 1]);
      RawTextUnfolds(pages, n, text, before, last);
      JoinStep(text, before, last);
    }
  }

  lemma RawTextUnfolds(pages: seq<ReadResult>, n: nat, text: string, before: seq<string>, last: seq<string>)
    requires 0 < n <= |pages| && last == Selected(pages[n - 1])
    requires text == RawText(pages, n - 1) && before == AllLines(pages, n - 1)
    ensures RawText(pages, n) == text + Join(last, "") && AllLines(pages, n) == before + last
  {}

  lemma JoinStep(text: string, a: seq<string>, b: seq<string>)
    requires text == Join(a, "")
    ensures text + Join(b, "") == Join(a + b, "")
  {
    JoinConcat(a, b);
  }

  lemma {:induction false} AdjacentLines(lines: seq<string>, pages: seq<ReadResult>, n: nat)
    requires 0 < n <= |pages| && Adjacent(lines, pages, n)
    ensures var first, last := pages[0], pages[n - 1];
            && IsPage(lines, first) && IsPage(lines, last)
            && first.start <= last.end && last.requestedEnd == first.requestedEnd
            && n <= last.end - first.start + 1
            && AllLines(pages, n) == lines[first.start - 1..last.end]
  {
    if n == 1 {
      assert AllLines(pages, 0) == [];
    } else {
      AdjacentLines(lines, pages, n - 1);
      assert Adjoins(lines, pages[n - 1 - 1], pages[n - 1]);
      var start, mid, end := pages[0].start, pages[n - 2].end, pages[n - 1].end;
      assert lines[start - 1..mid] + lines[mid..end] == lines[start - 1..end];
    }
  }

  lemma PagingIsAdjacent(src: Source, pages: seq<ReadResult>, budgets: seq<Budget>, n: nat)
    requires src.safeLimit >= 1 && 0 < n <= |pages| == |budgets| && IsPaging(src, pages, budgets, n)
    ensures Adjacent(src.lines, pages, n)
  {
    var holds := (k: nat) => k < |pages| && IsPage(src.lines, pages[k]);
    forall k: nat | k < n - 1 && holds(k) ensures holds(k + 1) {
      PageAfter(src, pages[k], pages[k + 1], budgets[k + 1]);
    }
    forall k | 0 < k < n ensures Adjoins(src.lines, pages[k - 1], pages[k]) {
      Stays(holds, 0, k - 1);
      assert holds(k - 1);
      PageAfter(src, pages[k - 1], pages[k], budgets[k]);
    }
  }

  lemma PageAfter(src: Source, w: ReadResult, v: ReadResult, b: Budget)
    requires src.safeLimit >= 1 && IsPage(src.lines, w) && Continues(src, w, v, b)
    ensures Adjoins(src.lines, w, v)
  {
    NextIsPage(src, w, b);
  }

  /** Everything that was requested has been read, once and in order, in at most one page per line. */
  predicate ReadsAll(lines: seq<string>, pages: seq<ReadResult>, n: nat)
    requires 0 < n <= |pages|
  {
    && IsPage(lines, pages[0]) && IsPage(lines, pages[n - 1])
    && n <= pages[0].requestedEnd - pages[0].requestedStart + 1
    && (pages[n - 1].nextStart.None? ==>
          RawText(pages, n) == Join(lines[pages[0].requestedStart - 1..pages[0].requestedEnd], ""))
  }

  lemma AdjacentReadsAll(lines: seq<string>, pages: seq<ReadResult>, n: nat)
    requires 0 < n <= |pages| && Adjacent(lines, pages, n)
    ensures ReadsAll(lines, pages, n)
  {
    AdjacentLines(lines, pages, n);
    var first, last := pages[0], pages[n - 1];
    if last.nextStart.None? {
      assert last.end == last.requestedEnd;
      RawTextIsJoin(pages, n);
    }
  }

  /**
   * Paging loses nothing, repeats nothing and ends. Whatever the token budgets, there is
   * at most one page per requested line, and once a page names no next line the raw texts
   * are the requested lines.
   */
  lemma PagingReadsAll(src: Source, pages: seq<ReadResult>, budgets: seq<Budget>, n: nat)
    requires src.safeLimit >= 1 && 0 < n <= |pages| == |budgets| && IsPaging(src, pages, budgets, n)
    ensures ReadsAll(src.lines, pages, n)
  {
    PagingIsAdjacent(src, pages, budgets, n);
    AdjacentReadsAll(src.lines, pages, n);
  }

  /** Every call without context lines that is granted a range inside the file starts such a paging. */
  lemma PagingStarts(src: Source, startArg: int, endArg: Option<int>, contextArg: int, b: Budget)
    requires contextArg <= 0 && src.safeLimit >= 1
    ensures var w := ReadWindow(src, startArg, endArg, contextArg, b);
            IsPaging(src, [w], [b], 1) <==> w.Window? && w.requestedStart <= w.requestedEnd
  {
    if ReadWindow(src, startArg, endArg, contextArg, b).Window? {
      WindowWithoutContext(src, startArg, endArg, contextArg, b);
    }
  }

  /** The pages so far, and the page that names no next line. */
  ghost predicate IsFinishedPaging(src: Source, pages: seq<ReadResult>, budgets: seq<Budget>) {
    && 0 < |pages| == |budgets| && IsPaging(src, pages, budgets, |pages|)
    && pages[|pages| - 1].Window? && pages[|pages| - 1].nextStart.None?
  }

  lemma OneMorePage(src: Source, pages: seq<ReadResult>, budgets: seq<Budget>, b: Budget)
      returns (all: seq<ReadResult>, used: seq<Budget>)
    requires 0 < |pages| == |budgets| && IsPaging(src, pages, budgets, |pages|)
    requires pages[|pages| - 1].Window? && pages[|pages| - 1].nextStart.Some?
    ensures |all| == |used| == |pages| + 1 && all[0] == pages[0] && IsPaging(src, all, used, |all|)
  {
    var next := NextPage(src, pages[|pages| - 1], b);
    all, used := pages + [next], budgets + [b];
    forall k | 0 < k < |all| ensures Continues(src, all[k - 1], all[k], used[k]) {
      if k < |pages| {
        assert Continues(src, pages[k - 1], pages[k], budgets[k]);
      }
    }
  }

  /** Following next_start_line from a non-empty page gets to the end, whatever the budgets. */
  lemma FinishedPaging(src: Source, pages: seq<ReadResult>, budgets: seq<Budget>, more: nat -> Budget)
      returns (all: seq<ReadResult>, used: seq<Budget>)
    requires src.safeLimit >= 1 && 0 < |pages| == |budgets| && IsPaging(src, pages, budgets, |pages|)
    ensures IsFinishedPaging(src, all, used) && all[0] == pages[0]
    decreases pages[0].requestedEnd - pages[0].requestedStart + 2 - |pages|
  {
    PagingReadsAll(src, pages, budgets, |pages|);
    if pages[|pages| - 1].nextStart.None? {
      all, used := pages, budgets;
    } else {
      all, used := OneMorePage(src, pages, budgets, more(|pages|));
      PagingReadsAll(src, all, used, |all|);
      all, used := FinishedPaging(src, all, used, more);
    }
  }

  /**
   * read_file(path), then read_file at each next_start_line until there is none: the raw texts are the file
   * from the start line on. Only a file longer than the safe limit, or one without that line, is refused.
   */
  lemma WholeFileIsRead(src: Source, startArg: int, contextArg: int, budgets: nat -> Budget)
      returns (pages: seq<ReadResult>, used: seq<Budget>)
    requires src.safeLimit >= 1 && contextArg <= 0
    requires |src.lines| <= src.safeLimit && (if startArg == 0 then 1 else startArg) <= |src.lines| && src.lines != []
    ensures IsFinishedPaging(src, pages, used)
    ensures pages[0] == ReadWindow(src, startArg, None, contextArg, budgets(0))
    ensures RawText(pages, |pages|) == Join(src.lines[if startArg <= 1 then 0 else startArg - 1..], "")
  {
    var first := ReadWindow(src, startArg, None, contextArg, budgets(0));
    FirstPage(src, startArg, contextArg, budgets(0));
    pages, used := FinishedPaging(src, [first], [budgets(0)], budgets);
    WholeTextIs(src, pages, used, if startArg <= 1 then 1 else startArg);
  }

  lemma FirstPage(src: Source, startArg: int, contextArg: int, b: Budget)
    requires src.safeLimit >= 1 && contextArg <= 0
    requires |src.lines| <= src.safeLimit && (if startArg == 0 then 1 else startArg) <= |src.lines| && src.lines != []
    ensures var w := ReadWindow(src, startArg, None, contextArg, b);
            && w.Window? && w.requestedStart == (if startArg <= 1 then 1 else startArg) && w.requestedEnd == |src.lines|
            && IsPaging(src, [w], [b], 1)
  {
    ReadKinds(src, startArg, None, contextArg, b);
    RequestedLines(src, startArg, None, contextArg, b);
    PagingStarts(src, startArg, None, contextArg, b);
  }

  lemma WholeTextIs(src: Source, pages: seq<ReadResult>, used: seq<Budget>, start: int)
    requires src.safeLimit >= 1 && IsFinishedPaging(src, pages, used)
    requires pages[0].Window? && pages[0].requestedStart == start && pages[0].requestedEnd == |src.lines| && 1 <= start
    ensures start <= |src.lines| && RawText(pages, |pages|) == Join(src.lines[start - 1..], "")
  {
    PagingReadsAll(src, pages, used, |pages|);
    assert src.lines[start - 1..|src.lines|] == src.lines[start - 1..];
  }
}
