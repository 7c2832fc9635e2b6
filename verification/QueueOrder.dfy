/**
 * In which order the notices of a key reach a queue when notifying threads
 * overlap (backend/task_manager.py), over the runs of TaskManager.
 */
module QueueOrder {
  import opened Basics
  import opened TaskManager

  /**
   * If the payload of notify `a` had already been scheduled for a queue when `b` was still to take its
   * snapshot, the queue never holds `b` before `a`.
   */
  lemma ReachedBeforeArrivesBefore(hubs: seq<Hub>, steps: seq<Step>, i: nat, j: nat, a: nat, b: nat, q: nat, x: nat, y: nat)
    requires IsRun(hubs, steps) && i <= j <= |steps|
    requires Due(hubs[i], a, q) && b !in hubs[i].snapshots
    requires x < |hubs[j].scheduled| && hubs[j].scheduled[x] == Item(q, a)
    requires y < |hubs[j].scheduled| && hubs[j].scheduled[y] == Item(q, b)
    ensures x < y
  {
    HistoryGrows(hubs, steps, i, j);
    DueIsScheduled(hubs, steps, i, a, q);
    DueIsScheduled(hubs, steps, i, b, q);
    var before, after := hubs[i].scheduled, hubs[j].scheduled;
    // the pair (q, a) occurs once in the end, and already occurred at `i`
    var k :| 0 <= k < |before| && before[k] == Item(q, a);
    ScheduledOnce(hubs, steps, j, x);
    assert after[k] == before[k];
    assert y < |before| ==> before[y] == after[y];
  }

  lemma WhenRecorded(hubs: seq<Hub>, steps: seq<Step>, n: nat, b: nat) returns (i: nat)
    requires IsRun(hubs, steps) && n <= |steps| && b < |hubs[n].notices|
    ensures i < n && steps[i].DoRecord? && |hubs[i].notices| == b && steps[i].notice == hubs[n].notices[b]
  {
    i := WhenFirst((k: nat) => k < |hubs| && b < |hubs[k].notices|, n);
    RunStep(hubs, steps, i);
    HistoryGrows(hubs, steps, i + 1, n);
  }

  /** A notify is recorded only when the earlier ones of its key have scheduled everything. */
  ghost predicate Serial(hubs: seq<Hub>, steps: seq<Step>)
    requires IsRun(hubs, steps)
  {
    forall i, m: nat ::
      0 <= i < |steps| && steps[i].DoRecord? && m < |hubs[i].notices| && hubs[i].notices[m].key == steps[i].notice.key ==>
        m in hubs[i].remaining && hubs[i].remaining[m] == []
  }

  /** Without overlapping notifies, each queue is served strictly in the order the statuses were recorded. */
  lemma SerialIsInOrder(hubs: seq<Hub>, steps: seq<Step>, n: nat, x: nat, y: nat)
    requires IsRun(hubs, steps) && n <= |steps| && Serial(hubs, steps)
    requires x < y < |hubs[n].scheduled| && hubs[n].scheduled[x].queue == hubs[n].scheduled[y].queue
    ensures hubs[n].scheduled[x].notice < hubs[n].scheduled[y].notice
  {
    var h := hubs[n];
    var q, a, b := h.scheduled[x].queue, h.scheduled[y].notice, h.scheduled[x].notice;
    ScheduledOnce(hubs, steps, n, x);
    ScheduledOnce(hubs, steps, n, y);
    if a < b {
      var i := WhenRecorded(hubs, steps, n, b);
      HistoryGrows(hubs, steps, i, n);
      RecordedIsUnseen(hubs, steps, i);
      FinishedHasReached(hubs, steps, i, a, q);
      ReachedIsDue(hubs, steps, i, n, a, q);
      ReachedBeforeArrivesBefore(hubs, steps, i, n, a, b, q, y, x);
    }
  }

  lemma RecordedIsUnseen(hubs: seq<Hub>, steps: seq<Step>, i: nat)
    requires IsRun(hubs, steps) && i <= |steps|
    ensures |hubs[i].notices| !in hubs[i].snapshots
  {
    RunKeepsInv(hubs, steps, i);
    assert |hubs[i].notices| in hubs[i].snapshots ==> NotifyOk(hubs[i], |hubs[i].notices|);
  }

  lemma FinishedHasReached(hubs: seq<Hub>, steps: seq<Step>, i: nat, a: nat, q: nat)
    requires IsRun(hubs, steps) && i <= |steps| && a in hubs[i].remaining && hubs[i].remaining[a] == []
    ensures !ToReach(hubs[i], a, q)
  {
    RunKeepsInv(hubs, steps, i);
    assert NotifyOk(hubs[i], a);
  }

  // ------------------------------------------------- exactly who can overtake

  /** Notify `a` may still schedule its payload for queue `q`. */
  predicate ToReach(h: Hub, a: nat, q: nat) {
    a !in h.snapshots || (a in h.remaining && q in h.remaining[a])
  }

  predicate Overtaken(h: Hub, a: nat, b: nat, q: nat) {
    exists x, y :: 0 <= x < y < |h.scheduled| && h.scheduled[x] == Item(q, b) && h.scheduled[y] == Item(q, a)
  }

  /** The run can go on so that the queue gets `b` before `a`. */
  ghost predicate CanOvertake(hubs: seq<Hub>, steps: seq<Step>, a: nat, b: nat, q: nat) {
    exists hubs': seq<Hub>, steps': seq<Step> ::
      IsRun(hubs', steps') && hubs <= hubs' && steps <= steps' && Overtaken(hubs'[|steps'|], a, b, q)
  }

  /** Queue `q` exists and is not subscribed, and notify `b` has not seen it. */
  predicate Missed(h: Hub, b: nat, key: string, q: nat) {
    && q < |h.owners| && b < |h.notices| && h.notices[b].key == key && q !in Subscribers(h.subscribers, key)
    && (b in h.snapshots ==> q !in h.snapshots[b])
  }

  lemma MissedStep(h: Hub, s: Step, b: nat, key: string, q: nat)
    requires Enabled(h, s) && Missed(h, b, key, q)
    ensures Missed(Next(h, s), b, key, q)
  {}

  /** An existing queue is never subscribed again; a snapshot is the subscribers of its moment. */
  lemma SnapshotsSubscribed(hubs: seq<Hub>, steps: seq<Step>, i: nat, j: nat, b: nat, key: string, q: nat)
    requires IsRun(hubs, steps) && i <= j <= |steps| && Missed(hubs[i], b, key, q)
    ensures Missed(hubs[j], b, key, q)
  {
    var holds := (k: nat) => k < |hubs| && Missed(hubs[k], b, key, q);
    forall k: nat | i <= k < j && holds(k) ensures holds(k + 1) {
      RunStep(hubs, steps, k);
      MissedStep(hubs[k], steps[k], b, key, q);
    }
    Stays(holds, i, j);
    assert holds(j);
  }

  lemma OvertakerNeedsBoth(hubs: seq<Hub>, steps: seq<Step>, i: nat, j: nat, a: nat, b: nat, q: nat)
    requires IsRun(hubs, steps) && i <= j <= |steps|
    requires q < |hubs[i].owners| && b < |hubs[i].notices| && b !in hubs[i].snapshots
    requires Overtaken(hubs[j], a, b, q)
    ensures q in Subscribers(hubs[i].subscribers, hubs[i].notices[b].key) && ToReach(hubs[i], a, q)
  {
    var h := hubs[j];
    var x, y :| 0 <= x < y < |h.scheduled| && h.scheduled[x] == Item(q, b) && h.scheduled[y] == Item(q, a);
    ScheduledOnce(hubs, steps, j, x);
    if q !in Subscribers(hubs[i].subscribers, hubs[i].notices[b].key) {
      SnapshotsSubscribed(hubs, steps, i, j, b, hubs[i].notices[b].key, q);
    }
    if !ToReach(hubs[i], a, q) {
      ScheduledOnce(hubs, steps, j, y);
      ReachedIsDue(hubs, steps, i, j, a, q);
      ReachedBeforeArrivesBefore(hubs, steps, i, j, a, b, q, y, x);
    }
  }

  lemma ReachedIsDue(hubs: seq<Hub>, steps: seq<Step>, i: nat, j: nat, a: nat, q: nat)
    requires IsRun(hubs, steps) && i <= j <= |steps| && Due(hubs[j], a, q) && !ToReach(hubs[i], a, q)
    ensures Due(hubs[i], a, q)
  {
    RunKeepsInv(hubs, steps, i);
    HistoryGrows(hubs, steps, i, j);
    assert NotifyOk(hubs[i], a);
  }

  lemma GoOn(hubs: seq<Hub>, steps: seq<Step>, s: Step) returns (hubs': seq<Hub>, steps': seq<Step>)
    requires IsRun(hubs, steps) && Enabled(hubs[|steps|], s)
    ensures IsRun(hubs', steps') && steps' == steps + [s] && hubs' == hubs + [Next(hubs[|steps|], s)]
  {
    steps', hubs' := steps + [s], hubs + [Next(hubs[|steps|], s)];
    forall i | 0 <= i < |steps'| ensures Enabled(hubs'[i], steps'[i]) && hubs'[i + 1] == Next(hubs'[i], steps'[i]) {
      if i < |steps| {
        assert hubs'[i] == hubs[i] && hubs'[i + 1] == hubs[i + 1] && steps'[i] == steps[i];
      }
    }
  }

  /** The members of a set in some order, from `q` on. */
  lemma {:induction false} OrderFrom(s: set<nat>, q: nat) returns (order: seq<nat>)
    requires q in s
    ensures order != [] && order[0] == q && NoRepeats(order) && Members(order) == s
  {
    var rest := s - {q};
    assert s == {q} + rest;
    if rest == {} {
      order := [q];
      assert Members(order) == {q};
    } else {
      var p :| p in rest;
      var tail := OrderFrom(rest, p);
      order := [q] + tail;
      assert q !in Members(tail);
      NoRepeatsConcat([q], tail);
      assert Members(order) == {q} + Members(tail);
    }
  }

  /** A notify that has not looked yet can look now and serve `q` first. */
  lemma ServeFirst(hubs: seq<Hub>, steps: seq<Step>, n: nat, q: nat) returns (hubs': seq<Hub>, steps': seq<Step>)
    requires IsRun(hubs, steps) && n < |hubs[|steps|].notices| && n !in hubs[|steps|].snapshots
    requires q in Subscribers(hubs[|steps|].subscribers, hubs[|steps|].notices[n].key)
    ensures IsRun(hubs', steps') && hubs <= hubs' && steps <= steps'
    ensures var h, h' := hubs[|steps|], hubs'[|steps'|];
            && h'.scheduled == h.scheduled + [Item(q, n)] && h'.notices == h.notices && h'.subscribers == h.subscribers
            && (forall m :: m != n ==> (m in h'.snapshots <==> m in h.snapshots))
            && (forall m :: m != n && m in h.remaining ==> m in h'.remaining && h'.remaining[m] == h.remaining[m])
  {
    var h := hubs[|steps|];
    var order := OrderFrom(Subscribers(h.subscribers, h.notices[n].key), q);
    hubs', steps' := GoOn(hubs, steps, DoSetLoop);
    hubs', steps' := GoOn(hubs', steps', DoSnapshot(n, order));
    hubs', steps' := GoOn(hubs', steps', DoSchedule(n));
  }

  /** A running notify can go on until it has served the t-th queue on its list. */
  lemma {:induction false} ServeUpTo(hubs: seq<Hub>, steps: seq<Step>, n: nat, t: nat) returns (hubs': seq<Hub>, steps': seq<Step>)
    requires IsRun(hubs, steps) && n in hubs[|steps|].remaining && t < |hubs[|steps|].remaining[n]|
    ensures IsRun(hubs', steps') && hubs <= hubs' && steps <= steps'
    ensures var h, h' := hubs[|steps|], hubs'[|steps'|];
            && |h'.scheduled| > |h.scheduled| && h.scheduled <= h'.scheduled
            && h'.scheduled[|h'.scheduled| - 1] == Item(h.remaining[n][t], n)
    decreases t
  {
    hubs', steps' := GoOn(hubs, steps, DoSchedule(n));
    if t > 0 {
      assert hubs'[|steps'|].remaining[n][t - 1] == hubs[|steps|].remaining[n][t];
      hubs', steps' := ServeUpTo(hubs', steps', n, t - 1);
    }
  }

  /**
   * Of two notices of one key, a queue can still get `b` before `a` exactly if it is subscribed when `b`
   * is about to look at the subscribers, and `a` has yet to reach it.
   */
  lemma CanOvertakeIff(hubs: seq<Hub>, steps: seq<Step>, a: nat, b: nat, q: nat)
    requires IsRun(hubs, steps) && q < |hubs[|steps|].owners| && a != b
    requires a < |hubs[|steps|].notices| && b < |hubs[|steps|].notices| && b !in hubs[|steps|].snapshots
    requires hubs[|steps|].notices[a].key == hubs[|steps|].notices[b].key
    ensures CanOvertake(hubs, steps, a, b, q) <==>
              q in Subscribers(hubs[|steps|].subscribers, hubs[|steps|].notices[b].key) && ToReach(hubs[|steps|], a, q)
  {
    var h := hubs[|steps|];
    if CanOvertake(hubs, steps, a, b, q) {
      var hubs', steps' :| IsRun(hubs', steps') && hubs <= hubs' && steps <= steps' && Overtaken(hubs'[|steps'|], a, b, q);
      assert hubs'[|steps|] == h;
      OvertakerNeedsBoth(hubs', steps', |steps|, |steps'|, a, b, q);
    } else if q in Subscribers(h.subscribers, h.notices[b].key) && ToReach(h, a, q) {
      Overtake(hubs, steps, a, b, q);
    }
  }

  lemma Overtake(hubs: seq<Hub>, steps: seq<Step>, a: nat, b: nat, q: nat)
    requires IsRun(hubs, steps) && a != b
    requires a < |hubs[|steps|].notices| && b < |hubs[|steps|].notices| && b !in hubs[|steps|].snapshots
    requires hubs[|steps|].notices[a].key == hubs[|steps|].notices[b].key
    requires q in Subscribers(hubs[|steps|].subscribers, hubs[|steps|].notices[b].key) && ToReach(hubs[|steps|], a, q)
    ensures CanOvertake(hubs, steps, a, b, q)
  {
    var h := hubs[|steps|];
    var mid, done := ServeFirst(hubs, steps, b, q);
    var m := mid[|done|];
    var hubs', steps';
    if a !in h.snapshots {
      hubs', steps' := ServeFirst(mid, done, a, q);
    } else {
      var t :| 0 <= t < |h.remaining[a]| && h.remaining[a][t] == q;
      hubs', steps' := ServeUpTo(mid, done, a, t);
    }
    var last := hubs'[|steps'|].scheduled;
    assert m.scheduled <= last && last[|last| - 1] == Item(q, a);
    assert last[|h.scheduled|] == Item(q, b);
    assert Overtaken(hubs'[|steps'|], a, b, q);
  }

  /** Every notify looks at the subscribers only after the earlier ones of its key have reached them. */
  ghost predicate ReachedFirst(hubs: seq<Hub>, steps: seq<Step>)
    requires IsRun(hubs, steps)
  {
    forall i, a: nat, q: nat ::
      0 <= i < |steps| && steps[i].DoSnapshot? && LooksAfter(hubs[i], steps[i].n, a, q) ==> !ToReach(hubs[i], a, q)
  }

  /** Notify `b` is about to look, `a` is an earlier one of its key, and `q` will be seen. */
  predicate LooksAfter(h: Hub, b: nat, a: nat, q: nat) {
    a < b < |h.notices| && h.notices[a].key == h.notices[b].key && q in Subscribers(h.subscribers, h.notices[b].key)
  }

  lemma {:induction false} PrefixIsRun(hubs: seq<Hub>, steps: seq<Step>, i: nat)
    requires IsRun(hubs, steps) && i <= |steps|
    ensures IsRun(hubs[..i + 1], steps[..i]) && hubs[..i + 1][|steps[..i]|] == hubs[i]
  {}

  /** That is exactly what rules out, at every such look, that the run goes on with an earlier notice overtaken. */
  lemma ReachedFirstIff(hubs: seq<Hub>, steps: seq<Step>)
    requires IsRun(hubs, steps)
    ensures ReachedFirst(hubs, steps) <==>
              forall i, a: nat, q: nat ::
                0 <= i < |steps| && steps[i].DoSnapshot? && LooksAfter(hubs[i], steps[i].n, a, q) ==>
                  !CanOvertake(hubs[..i + 1], steps[..i], a, steps[i].n, q)
  {
    forall i, a: nat, q: nat | 0 <= i < |steps| && steps[i].DoSnapshot? && LooksAfter(hubs[i], steps[i].n, a, q)
      ensures CanOvertake(hubs[..i + 1], steps[..i], a, steps[i].n, q) <==> ToReach(hubs[i], a, q)
    {
      PrefixIsRun(hubs, steps, i);
      RunKeepsInv(hubs, steps, i);
      assert Enabled(hubs[i], steps[i]);
      var key := hubs[i].notices[a].key;
      assert Owned(Subscribers(hubs[i].subscribers, key), hubs[i].owners, key);
      CanOvertakeIff(hubs[..i + 1], steps[..i], a, steps[i].n, q);
    }
  }

  lemma WhenSnapshot(hubs: seq<Hub>, steps: seq<Step>, n: nat, b: nat) returns (i: nat)
    requires IsRun(hubs, steps) && n <= |steps| && b in hubs[n].snapshots
    ensures i < n && steps[i].DoSnapshot? && steps[i].n == b && b !in hubs[i].snapshots && b < |hubs[i].notices|
  {
    i := WhenFirst((k: nat) => k < |hubs| && b in hubs[k].snapshots, n);
    RunStep(hubs, steps, i);
  }

  /** Then each queue that was there to be seen is served strictly in the order the statuses were recorded. */
  lemma ReachedFirstIsInOrder(hubs: seq<Hub>, steps: seq<Step>, n: nat, x: nat, y: nat)
    requires IsRun(hubs, steps) && n <= |steps| && ReachedFirst(hubs, steps)
    requires x < y < |hubs[n].scheduled| && hubs[n].scheduled[x].queue == hubs[n].scheduled[y].queue
    ensures hubs[n].scheduled[x].notice < hubs[n].scheduled[y].notice
  {
    var h := hubs[n];
    var q, a, b := h.scheduled[x].queue, h.scheduled[y].notice, h.scheduled[x].notice;
    ScheduledOnce(hubs, steps, n, x);
    ScheduledOnce(hubs, steps, n, y);
    if a < b {
      var i := WhenSnapshot(hubs, steps, n, b);
      HistoryGrows(hubs, steps, i, n);
      SeenIsSubscribed(hubs, steps, i, n, b, q);
      assert LooksAfter(hubs[i], b, a, q);
      OvertakerNeedsBoth(hubs, steps, i, n, a, b, q);
    }
  }

  lemma SeenIsSubscribed(hubs: seq<Hub>, steps: seq<Step>, i: nat, n: nat, b: nat, q: nat)
    requires IsRun(hubs, steps) && i < n <= |steps| && steps[i].DoSnapshot? && steps[i].n == b
    requires b in hubs[n].snapshots && q in hubs[n].snapshots[b]
    ensures b < |hubs[i].notices| && q in Subscribers(hubs[i].subscribers, hubs[i].notices[b].key) && q < |hubs[i].owners|
  {
    RunKeepsInv(hubs, steps, i);
    HistoryGrows(hubs, steps, i + 1, n);
    RunStep(hubs, steps, i);
    assert hubs[n].snapshots[b] == Members(steps[i].order);
    assert Owned(Subscribers(hubs[i].subscribers, hubs[i].notices[b].key), hubs[i].owners, hubs[i].notices[b].key);
  }

  // -------------------------------------------------------- two that race

  const RUNNING := Notice("k", "t", "running", "running")
  const DONE := Notice("k", "t", "done", "done")

  /** One subscriber, two threads: both record, then the second one schedules first. */
  function RaceStep(i: nat): Step {
    if i == 0 then DoSetLoop
    else if i == 1 then DoSubscribe("k")
    else if i == 2 then DoRecord(RUNNING)
    else if i == 3 then DoRecord(DONE)
    else if i == 4 then DoSnapshot(1, [0])
    else if i == 5 then DoSchedule(1)
    else if i == 6 then DoSnapshot(0, [0])
    else if i == 7 then DoSchedule(0)
    else DoCallback
  }

  function RaceHub(i: nat): Hub {
    if i == 0 then EMPTY_HUB
    else if i == 1 then EMPTY_HUB.(loopOpen := true)
    else
      Hub(true,
          if i < 3 then map[] else map["k" := map["t" := if i < 4 then "running" else "done"]],
          map["k" := {0}], ["k"],
          if i < 3 then [] else if i < 4 then [RUNNING] else [RUNNING, DONE],
          if i < 5 then map[] else
          if i < 6 then map[1 := [0]] else
          if i < 7 then map[1 := []] else
          if i < 8 then map[1 := [], 0 := [0]] else map[1 := [], 0 := []],
          if i < 6 then [] else
          if i < 8 then [Item(0, 1)] else
          if i < 9 then [Item(0, 1), Item(0, 0)] else
          if i < 10 then [Item(0, 0)] else [],
          [if i < 9 then [] else if i < 10 then [1] else [1, 0]],
          if i < 5 then map[] else if i < 7 then map[1 := {0}] else map[1 := {0}, 0 := {0}],
          if i < 6 then [] else if i < 8 then [Item(0, 1)] else [Item(0, 1), Item(0, 0)])
  }

  lemma RaceBegins()
    ensures forall i: nat :: i < 2 ==> Enabled(RaceHub(i), RaceStep(i)) && Next(RaceHub(i), RaceStep(i)) == RaceHub(i + 1)
  {
    assert Subscribers(EMPTY_HUB.subscribers, "k") + {0} == {0};
    assert Next(RaceHub(1), RaceStep(1)).subscribers == RaceHub(2).subscribers;
  }

  lemma RaceRecords(i: nat)
    requires 2 <= i < 4
    ensures Enabled(RaceHub(i), RaceStep(i)) && Next(RaceHub(i), RaceStep(i)) == RaceHub(i + 1)
  {
    var h, h' := RaceHub(i), Next(RaceHub(i), RaceStep(i));
    var status := if i == 2 then "running" else "done";
    assert Lookup(h.statuses, "k")["t" := status] == map["t" := status];
    assert h'.statuses == RaceHub(i + 1).statuses;
  }

  lemma RaceLooks(i: nat)
    requires i == 4 || i == 6
    ensures Enabled(RaceHub(i), RaceStep(i)) && Next(RaceHub(i), RaceStep(i)) == RaceHub(i + 1)
  {
    var order: seq<nat> := [0];
    assert Members(order) == {0};
    var h' := Next(RaceHub(i), RaceStep(i));
    assert h'.remaining == RaceHub(i + 1).remaining;
    assert h'.snapshots == RaceHub(i + 1).snapshots;
  }

  lemma RaceSchedules(i: nat)
    requires i == 5 || i == 7
    ensures Enabled(RaceHub(i), RaceStep(i)) && Next(RaceHub(i), RaceStep(i)) == RaceHub(i + 1)
  {
    var order: seq<nat> := [0];
    assert order[1..] == [];
    var h, h' := RaceHub(i), Next(RaceHub(i), RaceStep(i));
    assert h.remaining[RaceStep(i).n] == [0];
    assert h'.remaining == RaceHub(i + 1).remaining;
    assert h'.callbacks == RaceHub(i + 1).callbacks;
  }

  lemma RaceDelivers()
    ensures forall i: nat :: 8 <= i < 10 ==>
              Enabled(RaceHub(i), RaceStep(i)) && Next(RaceHub(i), RaceStep(i)) == RaceHub(i + 1)
  {
    assert RaceHub(8).callbacks[1..] == RaceHub(9).callbacks && RaceHub(9).callbacks[1..] == RaceHub(10).callbacks;
    assert RaceHub(8).delivered[0] + [1] == RaceHub(9).delivered[0];
    assert RaceHub(9).delivered[0] + [0] == RaceHub(10).delivered[0];
    assert Next(RaceHub(8), DoCallback) == RaceHub(9);
    assert Next(RaceHub(9), DoCallback) == RaceHub(10);
  }

  /**
   * Two threads that overlap: the queue receives the older status last, while
   * get_all returns the newer one.
   */
  lemma QueueMayEndStale() returns (hubs: seq<Hub>, steps: seq<Step>)
    ensures IsRun(hubs, steps)
    ensures var h := hubs[|steps|];
            && h.notices == [RUNNING, DONE] && h.callbacks == [] && h.remaining == map[0 := [], 1 := []]
            && h.delivered == [[1, 0]]
            && Lookup(h.statuses, "k") == map["t" := "done"]
  {
    hubs := seq(11, i requires 0 <= i => RaceHub(i));
    steps := seq(10, i requires 0 <= i => RaceStep(i));
    forall i: nat | i < 10 ensures Enabled(hubs[i], steps[i]) && hubs[i + 1] == Next(hubs[i], steps[i]) {
      if i < 2 {
        RaceBegins();
      } else if i < 4 {
        RaceRecords(i);
      } else if i == 4 || i == 6 {
        RaceLooks(i);
      } else if i < 8 {
        RaceSchedules(i);
      } else {
        RaceDelivers();
      }
    }
  }
}
