/**
 * backend/task_manager.py: in-process publish and subscribe. The class is the
 * manager as one thread sees it; the transition system below it interleaves
 * notifying threads, subscribers and the event loop.
 */
module TaskManager {
  import opened Basics

  type Statuses = map<string, map<string, string>>

  function Lookup(statuses: Statuses, key: string): map<string, string> {
    if key in statuses then statuses[key] else map[]
  }

  function Subscribers(subs: map<string, set<nat>>, key: string): set<nat> {
    if key in subs then subs[key] else {}
  }

  predicate IsSubscribed(subs: map<string, set<nat>>, key: string, queue: nat) {
    key in subs && queue in subs[key]
  }

  /** One callback for each of the queues, all with this payload. */
  ghost predicate OneEach(callbacks: seq<(nat, string)>, queues: set<nat>, payload: string) {
    && NoRepeats(callbacks)
    && forall c :: c in callbacks <==> c.0 in queues && c.1 == payload
  }

  /** The event loop's callback FIFO holds (queue, payload) pairs; `recorded` is every notify so far. */
  class Manager {
    var statuses: Statuses
    var subscribers: map<string, set<nat>>
    var loopOpen: bool
    var callbacks: seq<(nat, string)>
    var nextQueue: nat
    ghost var recorded: seq<Notice>

    /** The statuses are those recorded, and every subscribed queue has been handed out. */
    ghost predicate Valid()
      reads this
    {
      && statuses == Replay(recorded)
      && forall key :: key in subscribers ==> Below(subscribers[key], nextQueue)
    }

    constructor ()
      ensures Valid() && recorded == [] && statuses == map[] && subscribers == map[] && callbacks == [] && !loopOpen
    {
      statuses, subscribers, callbacks, loopOpen, nextQueue := map[], map[], [], false, 0;
      recorded := [];
    }

    method SetLoop()
      requires Valid()
      modifies this`loopOpen
      ensures Valid() && loopOpen
    {
      loopOpen := true;
    }

    /** notify: record the status, then schedule the payload once for every current subscriber of the key. */
    method Notify(key: string, task: string, status: string, payload: string)
      requires Valid()
      modifies this`statuses, this`callbacks, this`recorded
      ensures Valid() && recorded == old(recorded) + [Notice(key, task, status, payload)]
      ensures key in statuses && task in statuses[key] && statuses[key][task] == status
      ensures forall k, t :: k in statuses && t in statuses[k] && (k, t) != (key, task) ==>
                k in old(statuses) && t in old(statuses)[k] && statuses[k][t] == old(statuses)[k][t]
      ensures forall k, t :: k in old(statuses) && t in old(statuses)[k] ==> k in statuses && t in statuses[k]
      ensures !loopOpen ==> callbacks == old(callbacks)
      ensures old(callbacks) <= callbacks && NoRepeats(callbacks[|old(callbacks)|..])
      ensures loopOpen ==>
                forall c :: c in callbacks[|old(callbacks)|..] <==> IsSubscribed(subscribers, key, c.0) && c.1 == payload
    {
      statuses := statuses[key := Lookup(statuses, key)[task := status]];
      recorded := recorded + [Notice(key, task, status, payload)];
      assert recorded[..|recorded| - 1] == old(recorded);
      if loopOpen {
        var more := OnePerQueue(Subscribers(subscribers, key), payload);
        callbacks := callbacks + more;
      }
    }

    /** The loop over the subscribers: one call_soon_threadsafe each, in any order. */
    method OnePerQueue(queues: set<nat>, payload: string) returns (more: seq<(nat, string)>)
      ensures OneEach(more, queues, payload)
    {
      more := [];
      var left := queues;
      while left != {}
        invariant left <= queues && NoRepeats(more)
        invariant forall c :: c in more <==> c.0 in queues && c.0 !in left && c.1 == payload
        decreases |left|
      {
        var q :| q in left;
        more := more + [(q, payload)];
        left := left - {q};
      }
    }

    /** get_all: for every task, the status it was last notified with. */
    method GetAll(key: string) returns (all: map<string, string>)
      requires Valid()
      ensures forall task :: LastStatus(recorded, key, task) == if task in all then Some(all[task]) else None
    {
      all := Lookup(statuses, key);
      forall task ensures LastStatus(recorded, key, task) == if task in all then Some(all[task]) else None {
        ReplayIsLast(recorded, key, task);
      }
    }

    /** subscribe: a queue that no key has had before. */
    method Subscribe(key: string) returns (queue: nat)
      requires Valid()
      modifies this`subscribers, this`nextQueue
      ensures Valid() && nextQueue == old(nextQueue) + 1
      ensures forall k :: !IsSubscribed(old(subscribers), k, queue)
      ensures forall k, q: nat :: IsSubscribed(subscribers, k, q) <==> (k, q) == (key, queue) || IsSubscribed(old(subscribers), k, q)
    {
      queue := nextQueue;
      nextQueue := nextQueue + 1;
      subscribers := subscribers[key := Subscribers(subscribers, key) + {queue}];
    }

    method Unsubscribe(key: string, queue: nat)
      requires Valid()
      modifies this`subscribers
      ensures Valid()
      ensures forall k, q: nat :: IsSubscribed(subscribers, k, q) <==> IsSubscribed(old(subscribers), k, q) && (k, q) != (key, queue)
    {
      subscribers := subscribers[key := Subscribers(subscribers, key) - {queue}];
    }
  }

  predicate Below(queues: set<nat>, n: nat) {
    forall q :: q in queues ==> q < n
  }

  // ------------------------------------------------------------ interleaving

  /** One call of notify; its number is its place in the order in which statuses are recorded. */
  datatype Notice = Notice(key: string, task: string, status: string, payload: string)

  datatype Item = Item(queue: nat, notice: nat)

  /**
   * The manager, its threads and the loop. `snapshots` and `scheduled` are history:
   * which subscribers each notify saw, and every call_soon_threadsafe so far.
   */
  datatype Hub = Hub(
    loopOpen: bool,
    statuses: Statuses,
    subscribers: map<string, set<nat>>,
    owners: seq<string>,               // the key each queue was created for
    notices: seq<Notice>,
    remaining: map<nat, seq<nat>>,     // queues a running notify has still to schedule
    callbacks: seq<Item>,              // the loop's FIFO
    delivered: seq<seq<nat>>,          // what has been put into each queue, in order
    snapshots: map<nat, set<nat>>,
    scheduled: seq<Item>)

  datatype Step =
    | DoSetLoop
    | DoSubscribe(key: string)
    | DoUnsubscribe(key: string, queue: nat)
    | DoRecord(notice: Notice)                  // the status update of a notify
    | DoSnapshot(n: nat, order: seq<nat>)       // there is a loop; its list(self._subscribers[key]), in any order
    | DoSchedule(n: nat)                        // one call_soon_threadsafe
    | DoCallback                                // the loop runs queue.put_nowait

  const EMPTY_HUB := Hub(false, map[], map[], [], [], map[], [], [], map[], [])

  ghost predicate Enabled(h: Hub, s: Step) {
    match s
    case DoSnapshot(n, order) =>
      && h.loopOpen && n < |h.notices| && n !in h.snapshots && NoRepeats(order)
      && forall q :: q in order <==> q in Subscribers(h.subscribers, h.notices[n].key)
    case DoSchedule(n) => n in h.remaining && h.remaining[n] != []
    case DoCallback => h.callbacks != [] && h.callbacks[0].queue < |h.delivered|
    case _ => true
  }

  ghost function Next(h: Hub, s: Step): Hub
    requires Enabled(h, s)
  {
    match s
    case DoSetLoop => h.(loopOpen := true)
    case DoSubscribe(key) =>
      h.(subscribers := h.subscribers[key := Subscribers(h.subscribers, key) + {|h.owners|}],
         owners := h.owners + [key], delivered := h.delivered + [[]])
    case DoUnsubscribe(key, q) =>
      h.(subscribers := h.subscribers[key := Subscribers(h.subscribers, key) - {q}])
    case DoRecord(notice) =>
      h.(notices := h.notices + [notice],
         statuses := h.statuses[notice.key := Lookup(h.statuses, notice.key)[notice.task := notice.status]])
    case DoSnapshot(n, order) =>
      h.(remaining := h.remaining[n := order], snapshots := h.snapshots[n := Members(order)])
    case DoSchedule(n) =>
      var item := Item(h.remaining[n][0], n);
      h.(remaining := h.remaining[n := h.remaining[n][1..]],
         callbacks := h.callbacks + [item], scheduled := h.scheduled + [item])
    case DoCallback =>
      var item := h.callbacks[0];
      h.(callbacks := h.callbacks[1..],
         delivered := h.delivered[item.queue := h.delivered[item.queue] + [item.notice]])
  }

  // -------------------------------------------------------------- invariants

  /** The notices of one queue among the scheduled items, in order. */
  function OfQueue(items: seq<Item>, q: nat): seq<nat> {
    if items == [] then []
    else OfQueue(items[..|items| - 1], q) + (if items[|items| - 1].queue == q then [items[|items| - 1].notice] else [])
  }

  /** All these queues were created for `key`. */
  predicate Owned(queues: set<nat>, owners: seq<string>, key: string) {
    forall q :: q in queues ==> q < |owners| && owners[q] == key
  }

  /** A notify saw only queues of its own key, and has still to schedule some of those, each once. */
  predicate NotifyOk(h: Hub, n: nat) {
    && n in h.snapshots && n in h.remaining && n < |h.notices|
    && Owned(h.snapshots[n], h.owners, h.notices[n].key)
    && NoRepeats(h.remaining[n]) && Members(h.remaining[n]) <= h.snapshots[n]
  }

  /** Every subscriber set, snapshot and unfinished list holds queues of its own key only. */
  ghost predicate KeysOk(h: Hub) {
    && |h.delivered| == |h.owners|
    && (forall key :: key in h.subscribers ==> Owned(h.subscribers[key], h.owners, key))
    && (forall n: nat :: n in h.snapshots || n in h.remaining ==> NotifyOk(h, n))
    && (forall item :: item in h.scheduled ==> item.queue < |h.owners|)
  }

  /** The loop has run a prefix of what was scheduled; each queue holds its part of that prefix. */
  ghost predicate LoopOk(h: Hub) {
    && |h.callbacks| <= |h.scheduled|
    && h.callbacks == h.scheduled[|h.scheduled| - |h.callbacks|..]
    && forall q :: 0 <= q < |h.delivered| ==>
         h.delivered[q] == OfQueue(h.scheduled[..|h.scheduled| - |h.callbacks|], q)
  }

  /** The notify numbered `n` saw queue `q` and has scheduled it. */
  predicate Due(h: Hub, n: nat, q: nat) {
    n in h.snapshots && q in h.snapshots[n] && n in h.remaining && q !in h.remaining[n]
  }

  /** Each (queue, notice) pair is scheduled exactly once when it is due, and never otherwise. */
  ghost predicate OnceOk(h: Hub) {
    forall n: nat, q: nat :: Count(h.scheduled, Item(q, n)) == if Due(h, n, q) then 1 else 0
  }

  /** The recorded statuses, replayed in order. */
  function Replay(notices: seq<Notice>): Statuses {
    if notices == [] then map[]
    else
      var init, last := Replay(notices[..|notices| - 1]), notices[|notices| - 1];
      init[last.key := Lookup(init, last.key)[last.task := last.status]]
  }

  ghost predicate Inv(h: Hub) {
    KeysOk(h) && LoopOk(h) && OnceOk(h) && h.statuses == Replay(h.notices)
  }

  lemma OfQueueAppend(items: seq<Item>, item: Item, q: nat)
    ensures OfQueue(items + [item], q) == OfQueue(items, q) + (if item.queue == q then [item.notice] else [])
  {
    assert (items + [item])[..|items|] == items;
  }

  lemma EmptyHubOk()
    ensures Inv(EMPTY_HUB)
  {
    assert Replay(EMPTY_HUB.notices) == map[];
    assert forall q: nat, n: nat :: Count(EMPTY_HUB.scheduled, Item(q, n)) == 0;
  }

  lemma TailNoRepeats(list: seq<nat>)
    requires NoRepeats(list) && list != []
    ensures NoRepeats(list[1..]) && list[0] in list && list[0] !in list[1..]
    ensures forall q :: q in list <==> q == list[0] || q in list[1..]
  {
    assert list == [list[0]] + list[1..];
  }

  lemma SubscribersStep(h: Hub, s: Step)
    requires KeysOk(h) && Enabled(h, s)
    ensures var h' := Next(h, s);
            forall key :: key in h'.subscribers ==> Owned(h'.subscribers[key], h'.owners, key)
  {
    var h' := Next(h, s);
    assert h.owners <= h'.owners;
    forall key | key in h'.subscribers ensures Owned(h'.subscribers[key], h'.owners, key) {
      assert Owned(Subscribers(h.subscribers, key), h.owners, key);
    }
  }

  lemma NotifyStep(h: Hub, s: Step, n: nat)
    requires KeysOk(h) && Enabled(h, s) && (n in Next(h, s).snapshots || n in Next(h, s).remaining)
    ensures NotifyOk(Next(h, s), n)
  {
    if s.DoSnapshot? && s.n == n {
      assert Owned(Subscribers(h.subscribers, h.notices[n].key), h.owners, h.notices[n].key);
    } else {
      assert NotifyOk(h, n);
      assert h.owners <= Next(h, s).owners && h.notices <= Next(h, s).notices;
      if s.DoSchedule? && s.n == n {
        TailNoRepeats(h.remaining[n]);
      }
    }
  }

  lemma KeysStep(h: Hub, s: Step)
    requires KeysOk(h) && Enabled(h, s)
    ensures KeysOk(Next(h, s))
  {
    var h' := Next(h, s);
    SubscribersStep(h, s);
    forall n: nat | n in h'.snapshots || n in h'.remaining ensures NotifyOk(h', n) {
      NotifyStep(h, s, n);
    }
    if s.DoSchedule? {
      assert NotifyOk(h, s.n);
      var queue := h.remaining[s.n][0];
      assert queue in Members(h.remaining[s.n]);
      assert queue in h.snapshots[s.n];
    }
  }

  lemma LoopRuns(h: Hub)
    requires KeysOk(h) && LoopOk(h) && Enabled(h, DoCallback)
    ensures LoopOk(Next(h, DoCallback))
  {
    var h' := Next(h, DoCallback);
    var ran := |h.scheduled| - |h.callbacks|;
    var item := h.callbacks[0];
    assert item == h.scheduled[ran];
    assert h.scheduled[..ran + 1] == h.scheduled[..ran] + [item];
    forall q: nat | q < |h'.delivered| ensures h'.delivered[q] == OfQueue(h.scheduled[..ran + 1], q) {
      OfQueueAppend(h.scheduled[..ran], item, q);
    }
  }

  lemma LoopStep(h: Hub, s: Step)
    requires KeysOk(h) && LoopOk(h) && Enabled(h, s)
    ensures LoopOk(Next(h, s))
  {
    match s
    case DoSubscribe(key) => LoopAfterSubscribe(h, key);
    case DoSchedule(n) => LoopAfterSchedule(h, n);
    case DoCallback => LoopRuns(h);
    case _ =>
  }

  lemma LoopAfterSubscribe(h: Hub, key: string)
    requires KeysOk(h) && LoopOk(h)
    ensures LoopOk(Next(h, DoSubscribe(key)))
  {
    var ran := |h.scheduled| - |h.callbacks|;
    assert forall item :: item in h.scheduled[..ran] ==> item in h.scheduled;
    NoItemsYet(h.scheduled[..ran], |h.owners|);
  }

  lemma LoopAfterSchedule(h: Hub, n: nat)
    requires LoopOk(h) && Enabled(h, DoSchedule(n))
    ensures LoopOk(Next(h, DoSchedule(n)))
  {
    var ran := |h.scheduled| - |h.callbacks|;
    assert Next(h, DoSchedule(n)).scheduled[..ran] == h.scheduled[..ran];
  }

  lemma {:induction false} NoItemsYet(items: seq<Item>, q: nat)
    requires forall item :: item in items ==> item.queue < q
    ensures OfQueue(items, q) == []
  {
    if items != [] {
      NoItemsYet(items[..|items| - 1], q);
    }
  }

  lemma OnceStep(h: Hub, s: Step)
    requires KeysOk(h) && OnceOk(h) && Enabled(h, s)
    ensures OnceOk(Next(h, s))
  {
    forall n: nat, q: nat ensures Count(Next(h, s).scheduled, Item(q, n)) == if Due(Next(h, s), n, q) then 1 else 0 {
      assert Count(h.scheduled, Item(q, n)) == if Due(h, n, q) then 1 else 0;
      if s.DoSchedule? {
        OnceAfterSchedule(h, s.n, n, q);
      } else if s.DoSnapshot? && s.n == n {
        assert n in h.remaining ==> NotifyOk(h, n);
      }
    }
  }

  lemma OnceAfterSchedule(h: Hub, m: nat, n: nat, q: nat)
    requires KeysOk(h) && Enabled(h, DoSchedule(m))
    requires Count(h.scheduled, Item(q, n)) == if Due(h, n, q) then 1 else 0
    ensures var h' := Next(h, DoSchedule(m)); Count(h'.scheduled, Item(q, n)) == if Due(h', n, q) then 1 else 0
  {
    var list := h.remaining[m];
    CountAppend(h.scheduled, Item(list[0], m), Item(q, n));
    assert NotifyOk(h, m);
    TailNoRepeats(list);
    assert list[0] in Members(list);
  }

  lemma StepKeepsInv(h: Hub, s: Step)
    requires Inv(h) && Enabled(h, s)
    ensures Inv(Next(h, s))
  {
    KeysStep(h, s);
    LoopStep(h, s);
    OnceStep(h, s);
    if s.DoRecord? {
      assert Next(h, s).notices[..|h.notices|] == h.notices;
    }
  }

  // ------------------------------------------------------------ whole runs

  /** `hubs[i]` is the state before step `i`. */
  ghost predicate IsRun(hubs: seq<Hub>, steps: seq<Step>) {
    && |hubs| == |steps| + 1 && hubs[0] == EMPTY_HUB
    && forall i :: 0 <= i < |steps| ==> Enabled(hubs[i], steps[i]) && hubs[i + 1] == Next(hubs[i], steps[i])
  }

  lemma {:induction false} RunKeepsInv(hubs: seq<Hub>, steps: seq<Step>, n: nat)
    requires IsRun(hubs, steps) && n <= |steps|
    ensures Inv(hubs[n])
  {
    if n == 0 {
      EmptyHubOk();
    } else {
      RunKeepsInv(hubs, steps, n - 1);
      StepKeepsInv(hubs[n - 1], steps[n - 1]);
    }
  }

  lemma {:induction false} OfQueueConcat(a: seq<Item>, b: seq<Item>, q: nat)
    ensures OfQueue(a + b, q) == OfQueue(a, q) + OfQueue(b, q)
  {
    if b == [] {
      assert a + b == a;
    } else {
      var init, last := b[..|b| - 1], b[|b| - 1];
      OfQueueConcat(a, init, q);
      assert a + b == (a + init) + [last];
      OfQueueAppend(a + init, last, q);
    }
  }

  lemma {:induction false} CountOfQueue(items: seq<Item>, q: nat, n: nat)
    ensures Count(OfQueue(items, q), n) == Count(items, Item(q, n))
  {
    if items != [] {
      var init, last := items[..|items| - 1], items[|items| - 1];
      CountOfQueue(init, q, n);
      assert items == init + [last];
      if last.queue == q {
        CountAppend(OfQueue(init, q), last.notice, n);
      } else {
        assert OfQueue(items, q) == OfQueue(init, q);
      }
    }
  }

  /**
   * Under any interleaving, what a queue has received followed by what the loop still
   * holds for it is exactly what was scheduled for it, in scheduling order: every notice
   * whose snapshot contained the queue and that has reached it, once, and no other.
   */
  lemma Delivery(hubs: seq<Hub>, steps: seq<Step>, n: nat, q: nat)
    requires IsRun(hubs, steps) && n <= |steps| && q < |hubs[n].delivered|
    ensures var h := hubs[n];
            |h.delivered| == |h.owners| &&
            var all := h.delivered[q] + OfQueue(h.callbacks, q);
            && all == OfQueue(h.scheduled, q)
            && (forall m: nat :: Count(all, m) == if Due(h, m, q) then 1 else 0)
            && (forall m: nat :: m in all ==> m < |h.notices| && h.notices[m].key == h.owners[q])
  {
    RunKeepsInv(hubs, steps, n);
    var h := hubs[n];
    var ran := |h.scheduled| - |h.callbacks|;
    OfQueueConcat(h.scheduled[..ran], h.callbacks, q);
    assert h.scheduled == h.scheduled[..ran] + h.callbacks;
    var all := OfQueue(h.scheduled, q);
    forall m: nat ensures Count(all, m) == if Due(h, m, q) then 1 else 0 {
      CountOfQueue(h.scheduled, q, m);
    }
    forall m: nat | m in all ensures m < |h.notices| && h.notices[m].key == h.owners[q] {
      CountIn(all, m);
      assert Due(h, m, q) && NotifyOk(h, m);
    }
  }

  /** Once a notify has nothing left to schedule, every queue it saw has its payload exactly once. */
  lemma FinishedNotify(hubs: seq<Hub>, steps: seq<Step>, n: nat, m: nat, q: nat)
    requires IsRun(hubs, steps) && n <= |steps| && q < |hubs[n].delivered|
    requires m in hubs[n].remaining && hubs[n].remaining[m] == []
    ensures var h := hubs[n];
            m in h.snapshots
            && Count(h.delivered[q] + OfQueue(h.callbacks, q), m) == if q in h.snapshots[m] then 1 else 0
  {
    RunKeepsInv(hubs, steps, n);
    Delivery(hubs, steps, n, q);
  }

  /** What has been recorded and scheduled stays, in the same order, and snapshots are never revised. */
  predicate Grows(h: Hub, h': Hub) {
    && h.notices <= h'.notices && h.scheduled <= h'.scheduled
    && forall m :: m in h.snapshots ==> m in h'.snapshots && h'.snapshots[m] == h.snapshots[m]
  }

  lemma StepGrows(h: Hub, s: Step)
    requires Enabled(h, s)
    ensures Grows(h, Next(h, s))
  {}

  lemma GrowsTransitive(a: Hub, b: Hub, c: Hub)
    requires Grows(a, b) && Grows(b, c)
    ensures Grows(a, c)
  {}

  lemma RunStep(hubs: seq<Hub>, steps: seq<Step>, i: nat)
    requires IsRun(hubs, steps) && i < |steps|
    ensures Enabled(hubs[i], steps[i]) && hubs[i + 1] == Next(hubs[i], steps[i])
  {}

  lemma HistoryGrows(hubs: seq<Hub>, steps: seq<Step>, i: nat, j: nat)
    requires IsRun(hubs, steps) && i <= j <= |steps|
    ensures Grows(hubs[i], hubs[j])
  {
    var holds := (k: nat) => k < |hubs| && Grows(hubs[i], hubs[k]);
    forall k: nat | i <= k < j && holds(k) ensures holds(k + 1) {
      RunStep(hubs, steps, k);
      StepGrows(hubs[k], steps[k]);
      GrowsTransitive(hubs[i], hubs[k], hubs[k + 1]);
    }
    assert holds(i);
    Stays(holds, i, j);
    assert holds(j);
  }

  /** Every scheduled pair is due, of the right key, and scheduled once; what is due is scheduled. */
  lemma ScheduledOnce(hubs: seq<Hub>, steps: seq<Step>, n: nat, x: nat)
    requires IsRun(hubs, steps) && n <= |steps| && x < |hubs[n].scheduled|
    ensures var h, item := hubs[n], hubs[n].scheduled[x];
            && Due(h, item.notice, item.queue) && NotifyOk(h, item.notice)
            && forall y :: 0 <= y < |h.scheduled| && h.scheduled[y] == item ==> y == x
  {
    RunKeepsInv(hubs, steps, n);
    var h, item := hubs[n], hubs[n].scheduled[x];
    CountIn(h.scheduled, item);
    assert Due(h, item.notice, item.queue) && NotifyOk(h, item.notice);
    forall y | 0 <= y < |h.scheduled| && h.scheduled[y] == item ensures y == x {
      if x != y {
        CountTwice(h.scheduled, item, if x < y then x else y, if x < y then y else x);
      }
    }
  }

  lemma DueIsScheduled(hubs: seq<Hub>, steps: seq<Step>, n: nat, m: nat, q: nat)
    requires IsRun(hubs, steps) && n <= |steps|
    ensures Due(hubs[n], m, q) <==> Item(q, m) in hubs[n].scheduled
  {
    RunKeepsInv(hubs, steps, n);
    CountIn(hubs[n].scheduled, Item(q, m));
  }

  lemma {:induction false} CountTwice<T>(s: seq<T>, item: T, x: nat, y: nat)
    requires x < y < |s| && s[x] == item && s[y] == item
    ensures Count(s, item) >= 2
  {
    var init := s[..|s| - 1];
    if y == |s| - 1 {
      CountIn(init, item);
      assert init[x] in init;
    } else {
      CountTwice(init, item, x, y);
    }
  }

  /** The last notice for a task, if any. */
  function LastStatus(notices: seq<Notice>, key: string, task: string): Option<string> {
    if notices == [] then None
    else if notices[|notices| - 1].key == key && notices[|notices| - 1].task == task
      then Some(notices[|notices| - 1].status)
    else LastStatus(notices[..|notices| - 1], key, task)
  }

  /** Notice `i` is the last one for the task. */
  predicate IsLastFor(notices: seq<Notice>, key: string, task: string, i: nat) {
    && i < |notices| && notices[i].key == key && notices[i].task == task
    && forall j :: i < j < |notices| ==> notices[j].key != key || notices[j].task != task
  }

  lemma {:induction false} LastStatusMeans(notices: seq<Notice>, key: string, task: string) returns (i: nat)
    ensures LastStatus(notices, key, task) == None <==>
              forall j :: 0 <= j < |notices| ==> notices[j].key != key || notices[j].task != task
    ensures LastStatus(notices, key, task) != None ==>
              IsLastFor(notices, key, task, i) && LastStatus(notices, key, task) == Some(notices[i].status)
  {
    i := 0;
    if notices != [] {
      var last: nat := |notices| - 1;
      i := LastStatusMeans(notices[..last], key, task);
      if notices[last].key == key && notices[last].task == task {
        i := last;
      }
    }
  }

  lemma {:induction false} ReplayIsLast(notices: seq<Notice>, key: string, task: string)
    ensures var all := Lookup(Replay(notices), key);
            LastStatus(notices, key, task) == if task in all then Some(all[task]) else None
  {
    if notices != [] {
      ReplayIsLast(notices[..|notices| - 1], key, task);
    }
  }

  /** get_all returns, for each task of the key, the status recorded last. */
  lemma GetAllIsLastStatus(hubs: seq<Hub>, steps: seq<Step>, n: nat, key: string, task: string)
    requires IsRun(hubs, steps) && n <= |steps|
    ensures var all := Lookup(hubs[n].statuses, key);
            LastStatus(hubs[n].notices, key, task) == if task in all then Some(all[task]) else None
  {
    RunKeepsInv(hubs, steps, n);
    ReplayIsLast(hubs[n].notices, key, task);
  }

  /** The loop is never stuck: a pending callback can always run. */
  lemma CallbackEnabled(hubs: seq<Hub>, steps: seq<Step>, n: nat)
    requires IsRun(hubs, steps) && n <= |steps| && hubs[n].callbacks != []
    ensures Enabled(hubs[n], DoCallback)
  {
    RunKeepsInv(hubs, steps, n);
    var h := hubs[n];
    assert h.callbacks[0] == h.scheduled[|h.scheduled| - |h.callbacks|];
  }

  /** As long as there is no event loop, nothing is scheduled or received, however the threads interleave. */
  lemma {:induction false} NothingWithoutLoop(hubs: seq<Hub>, steps: seq<Step>, n: nat)
    requires IsRun(hubs, steps) && n <= |steps| && !hubs[n].loopOpen
    ensures var h := hubs[n];
            && h.scheduled == [] && h.callbacks == [] && h.snapshots == map[] && h.remaining == map[]
            && forall q :: 0 <= q < |h.delivered| ==> h.delivered[q] == []
  {
    if n > 0 {
      assert Enabled(hubs[n - 1], steps[n - 1]) && hubs[n] == Next(hubs[n - 1], steps[n - 1]);
      NothingWithoutLoop(hubs, steps, n - 1);
    }
  }

  // --------------------------------------------- what the steps have said

  /** A subscription for the key before step `n` returned the queue, and nobody has unsubscribed it since. */
  ghost predicate Listens(hubs: seq<Hub>, steps: seq<Step>, n: nat, key: string, q: nat)
    requires |hubs| == |steps| + 1 && n <= |steps|
  {
    exists i :: 0 <= i < n && steps[i] == DoSubscribe(key) && |hubs[i].owners| == q
                && forall j :: i < j < n ==> steps[j] != DoUnsubscribe(key, q)
  }

  lemma ListensNext(hubs: seq<Hub>, steps: seq<Step>, n: nat, key: string, q: nat)
    requires |hubs| == |steps| + 1 && n < |steps|
    ensures Listens(hubs, steps, n + 1, key, q) <==>
              || (steps[n] == DoSubscribe(key) && |hubs[n].owners| == q)
              || (Listens(hubs, steps, n, key, q) && steps[n] != DoUnsubscribe(key, q))
  {
    if Listens(hubs, steps, n, key, q) {
      var i :| 0 <= i < n && steps[i] == DoSubscribe(key) && |hubs[i].owners| == q
               && forall j :: i < j < n ==> steps[j] != DoUnsubscribe(key, q);
      assert steps[n] != DoUnsubscribe(key, q) ==> forall j :: i < j < n + 1 ==> steps[j] != DoUnsubscribe(key, q);
    }
    if Listens(hubs, steps, n + 1, key, q) {
      var i :| 0 <= i < n + 1 && steps[i] == DoSubscribe(key) && |hubs[i].owners| == q
               && forall j :: i < j < n + 1 ==> steps[j] != DoUnsubscribe(key, q);
      assert i < n ==> steps[n] != DoUnsubscribe(key, q);
    }
  }

  /** The subscribers of a key are the queues that subscriptions returned and that are not unsubscribed. */
  lemma {:induction false} SubscribersListen(hubs: seq<Hub>, steps: seq<Step>, n: nat, key: string, q: nat)
    requires IsRun(hubs, steps) && n <= |steps|
    ensures q in Subscribers(hubs[n].subscribers, key) <==> Listens(hubs, steps, n, key, q)
  {
    if n > 0 {
      var m: nat := n - 1;
      SubscribersListen(hubs, steps, m, key, q);
      RunStep(hubs, steps, m);
      ListensNext(hubs, steps, m, key, q);
    }
  }

  /** What one step does to the queues and the notices. */
  lemma OneStep(hubs: seq<Hub>, steps: seq<Step>, i: nat)
    requires IsRun(hubs, steps) && i < |steps|
    ensures hubs[i + 1].owners == hubs[i].owners + if steps[i].DoSubscribe? then [steps[i].key] else []
    ensures hubs[i + 1].notices == hubs[i].notices + if steps[i].DoRecord? then [steps[i].notice] else []
  {
    RunStep(hubs, steps, i);
    var h, s := hubs[i], steps[i];
    assert Next(h, s).owners == h.owners + if s.DoSubscribe? then [s.key] else [];
    assert Next(h, s).notices == h.notices + if s.DoRecord? then [s.notice] else [];
  }

  /** A queue's number is the number of subscriptions before its own, and its key the one it was asked for. */
  lemma QueuesAreNumbered(hubs: seq<Hub>, steps: seq<Step>, n: nat)
    requires IsRun(hubs, steps) && n <= |steps|
    ensures |hubs[n].owners| == |set i: nat | i < n && steps[i].DoSubscribe?|
    ensures n < |steps| && steps[n].DoSubscribe? ==> hubs[n + 1].owners == hubs[n].owners + [steps[n].key]
  {
    var p := (i: nat) => i < |steps| && steps[i].DoSubscribe?;
    OwnersCount(hubs, steps, n, p);
    assert (set i: nat | i < n && p(i)) == set i: nat | i < n && steps[i].DoSubscribe?;
    if n < |steps| {
      OneStep(hubs, steps, n);
    }
  }

  lemma {:induction false} OwnersCount(hubs: seq<Hub>, steps: seq<Step>, n: nat, p: nat -> bool)
    requires IsRun(hubs, steps) && n <= |steps| && forall i: nat :: i < |steps| ==> (p(i) <==> steps[i].DoSubscribe?)
    ensures |hubs[n].owners| == |set i: nat | i < n && p(i)|
  {
    if n == 0 {
      assert (set i: nat | i < n && p(i)) == {};
    } else {
      OwnersCount(hubs, steps, n - 1, p);
      OneStep(hubs, steps, n - 1);
      OneMoreCounted(p, n - 1);
    }
  }

  /** There is a loop as soon as it has been set. */
  lemma {:induction false} LoopIsSet(hubs: seq<Hub>, steps: seq<Step>, n: nat)
    requires IsRun(hubs, steps) && n <= |steps|
    ensures hubs[n].loopOpen <==> exists i :: 0 <= i < n && steps[i].DoSetLoop?
  {
    if n > 0 {
      LoopIsSet(hubs, steps, n - 1);
      RunStep(hubs, steps, n - 1);
      assert steps[n - 1].DoSetLoop? || !steps[n - 1].DoSetLoop?;
    }
  }

  ghost function Recorded(steps: seq<Step>): (all: seq<Notice>)
    ensures |all| == |steps| && forall i :: 0 <= i < |steps| && steps[i].DoRecord? ==> all[i] == steps[i].notice
  {
    seq(|steps|, i requires 0 <= i < |steps| => if steps[i].DoRecord? then steps[i].notice else Notice("", "", "", ""))
  }

  /** The notices are those of the notifies so far, in the order in which they recorded their status. */
  lemma NoticesAreRecorded(hubs: seq<Hub>, steps: seq<Step>, n: nat) returns (at: seq<nat>)
    requires IsRun(hubs, steps) && n <= |steps|
    ensures Picks(hubs[n].notices, Recorded(steps), n, (i: nat) => i < |steps| && steps[i].DoRecord?, at)
  {
    at := RecordedPicks(hubs, steps, n, (i: nat) => i < |steps| && steps[i].DoRecord?);
  }

  lemma {:induction false} RecordedPicks(hubs: seq<Hub>, steps: seq<Step>, n: nat, p: nat -> bool) returns (at: seq<nat>)
    requires IsRun(hubs, steps) && n <= |steps| && forall i: nat :: i < |steps| ==> (p(i) <==> steps[i].DoRecord?)
    ensures Picks(hubs[n].notices, Recorded(steps), n, p, at)
  {
    if n == 0 {
      at := [];
    } else {
      var m: nat := n - 1;
      at := RecordedPicks(hubs, steps, m, p);
      OneStep(hubs, steps, m);
      PicksOneMore(hubs[m].notices, Recorded(steps), m, p, at);
      at := if p(m) then at + [m] else at;
    }
  }

  /**
   * A notify reaches who was listening when it looked: at some step after the loop was set it took all
   * the queues that were subscribed to its key then and not unsubscribed, and no other.
   */
  lemma WhoIsNotified(hubs: seq<Hub>, steps: seq<Step>, n: nat, m: nat) returns (i: nat)
    requires IsRun(hubs, steps) && n <= |steps| && m in hubs[n].snapshots
    ensures m < |hubs[n].notices|
    ensures i < n && steps[i].DoSnapshot? && steps[i].n == m && m < |hubs[i].notices|
    ensures exists k :: 0 <= k < i && steps[k].DoSetLoop?
    ensures forall q: nat :: q in hubs[n].snapshots[m] <==> Listens(hubs, steps, i, hubs[n].notices[m].key, q)
  {
    i := WhenFirst((k: nat) => k < |hubs| && m in hubs[k].snapshots, n);
    RunStep(hubs, steps, i);
    HistoryGrows(hubs, steps, i, n);
    HistoryGrows(hubs, steps, i + 1, n);
    LoopIsSet(hubs, steps, i);
    forall q: nat ensures q in hubs[n].snapshots[m] <==> Listens(hubs, steps, i, hubs[n].notices[m].key, q) {
      SubscribersListen(hubs, steps, i, hubs[n].notices[m].key, q);
    }
  }

  /** What is picked out for a queue: its items, in their order. */
  lemma OfQueuePicks(items: seq<Item>, q: nat) returns (at: seq<nat>)
    ensures Picks(OfQueue(items, q), NoticesOf(items), |items|, (i: nat) => i < |items| && items[i].queue == q, at)
  {
    var p := (i: nat) => i < |items| && items[i].queue == q;
    var r := (i: nat) => if i <= |items| then OfQueue(items[..i], q) else [];
    forall i: nat | i < |items| ensures r(i + 1) == r(i) + if p(i) then [NoticesOf(items)[i]] else [] {
      assert items[..i + 1] == items[..i] + [items[i]];
      OfQueueAppend(items[..i], items[i], q);
    }
    at := Collected(r, NoticesOf(items), |items|, p);
    assert items[..|items|] == items;
  }

  ghost function NoticesOf(items: seq<Item>): (ns: seq<nat>)
    ensures |ns| == |items| && forall i :: 0 <= i < |ns| ==> ns[i] == items[i].notice
  {
    seq(|items|, i requires 0 <= i < |items| => items[i].notice)
  }

  // ------------------------------------------------------- one thread alone

  /** The loop's FIFO as the class holds it. */
  function Payloads(items: seq<Item>, notices: seq<Notice>): seq<(nat, string)>
    requires forall item :: item in items ==> item.notice < |notices|
  {
    seq(|items|, i requires 0 <= i < |items| => (items[i].queue, notices[items[i].notice].payload))
  }

  ghost function Finish(h: Hub, n: nat): Hub
    requires n in h.remaining
    decreases |h.remaining[n]|
  {
    if h.remaining[n] == [] then h else Finish(Next(h, DoSchedule(n)), n)
  }

  lemma {:induction false} FinishSchedules(h: Hub, n: nat)
    requires n in h.remaining
    ensures var order := h.remaining[n];
            var h' := Finish(h, n);
            && h'.callbacks == h.callbacks + seq(|order|, i requires 0 <= i < |order| => Item(order[i], n))
            && h'.statuses == h.statuses && h'.subscribers == h.subscribers && h'.notices == h.notices
    decreases |h.remaining[n]|
  {
    if h.remaining[n] != [] {
      FinishSchedules(Next(h, DoSchedule(n)), n);
    }
  }

  /** A notify that nothing interrupts has the effect of the method above. */
  lemma NotifyAlone(h: Hub, notice: Notice, order: seq<nat>)
    requires Enabled(Next(h, DoRecord(notice)), DoSnapshot(|h.notices|, order))
    requires forall item :: item in h.callbacks ==> item.notice < |h.notices|
    ensures var n := |h.notices|;
            var h' := Finish(Next(Next(h, DoRecord(notice)), DoSnapshot(n, order)), n);
            && h'.statuses == h.statuses[notice.key := Lookup(h.statuses, notice.key)[notice.task := notice.status]]
            && h'.subscribers == h.subscribers
            && h'.notices == h.notices + [notice]
            && (forall item :: item in h'.callbacks ==> item.notice < |h'.notices|)
            && var before, after := Payloads(h.callbacks, h.notices), Payloads(h'.callbacks, h'.notices);
               && before <= after
               && OneEach(after[|before|..], Subscribers(h.subscribers, notice.key), notice.payload)
  {
    var n := |h.notices|;
    var h2 := Next(Next(h, DoRecord(notice)), DoSnapshot(n, order));
    FinishSchedules(h2, n);
    var h' := Finish(h2, n);
    FinishedPayloads(h, notice, order, h'.callbacks);
  }

  lemma FinishedPayloads(h: Hub, notice: Notice, order: seq<nat>, callbacks: seq<Item>)
    requires NoRepeats(order) && forall q :: q in order <==> q in Subscribers(h.subscribers, notice.key)
    requires forall item :: item in h.callbacks ==> item.notice < |h.notices|
    requires callbacks == h.callbacks + seq(|order|, i requires 0 <= i < |order| => Item(order[i], |h.notices|))
    ensures forall item :: item in callbacks ==> item.notice < |h.notices + [notice]|
    ensures var before, after := Payloads(h.callbacks, h.notices), Payloads(callbacks, h.notices + [notice]);
            && before <= after
            && OneEach(after[|before|..], Subscribers(h.subscribers, notice.key), notice.payload)
  {
    var before, after := Payloads(h.callbacks, h.notices), Payloads(callbacks, h.notices + [notice]);
    var more := after[|before|..];
    assert |more| == |order| && forall i :: 0 <= i < |more| ==> more[i] == (order[i], notice.payload);
    forall c: (nat, string) | c.0 in Subscribers(h.subscribers, notice.key) && c.1 == notice.payload ensures c in more {
      var i :| 0 <= i < |order| && order[i] == c.0;
      assert more[i] == c;
    }
  }
}
