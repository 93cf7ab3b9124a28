/** Mutexes: the queue fields that serve as one (queue.c) and the holder accounting and priority
    inheritance that tasks.c keeps for them, over the whole kernel state. */
module Mutexes {
  import opened Ticks
  import opened ListModel
  import opened Tasks
  import opened TaskInvariants
  import opened TaskFrames
  import TaskRuns
  import TaskSelection

  datatype Holder = Nobody | Task(id: TaskId)

  /** A queue used as a mutex; its list of waiting receivers is the event list of the same number. */
  datatype Mutex = Mutex(
    holder: Holder,                  // pxMutexHolder
    count: nat,                      // uxMessagesWaiting, of a length of 1
    calls: nat,                      // uxRecursiveCallCount
    recursive: bool,                 // made for xQueueTakeMutexRecursive and xQueueGiveMutexRecursive
    ranks: map<TaskId, Priority>,    // history: the priority each task had when it last blocked on the mutex
    owed: set<TaskId>)               // history: the tasks that have blocked since the mutex was last taken

  datatype System = System(k: Kernel, mutexes: map<EventId, Mutex>)

  // ---------- the critical sections ----------

  /** xQueueCreateMutex: the mutex starts out given. */
  function Fresh(recursive: bool): Mutex {
    Mutex(Nobody, 1, 0, recursive, map[], {})
  }

  /** The critical section of xQueueGenericReceive: whether it took the mutex, and what that did. */
  function Taken(x: Mutex, t: TaskId): Mutex
    requires x.count > 0
  {
    x.(count := x.count - 1, holder := Task(t), owed := {})
  }

  function TryTake(s: System, e: EventId): System
    requires e in s.mutexes && s.k.current in s.k.tcb
  {
    var x := s.mutexes[e];
    if x.count == 0 then s else System(IncrementHeld(s.k), s.mutexes[e := Taken(x, s.k.current)])
  }

  /** How xQueueGenericReceive blocks on a mutex that it found taken. */
  function Asked(x: Mutex, t: TaskId, p: Priority): Mutex {
    x.(ranks := x.ranks[t := p], owed := x.owed + {t})
  }

  function InheritIfHeld(k: Kernel, h: Holder): Kernel
    requires h.Task? ==> h.id in k.tcb
  {
    if h.Task? then Inherit(k, h.id) else k
  }

  function BlockOn(s: System, e: EventId, ticks: Tick): System
    requires e in s.mutexes && s.k.current in s.k.tcb
    requires s.mutexes[e].holder.Task? ==> s.mutexes[e].holder.id in s.k.tcb
  {
    var x := s.mutexes[e];
    if x.count > 0 then s
    else System(PlaceOnEvent(InheritIfHeld(s.k, x.holder), e, ticks),
                s.mutexes[e := Asked(x, s.k.current, s.k.PriorityOf(s.k.current))])
  }

  /** The critical section of xQueueGenericSend on a mutex, with prvCopyDataToQueue. */
  function Given(x: Mutex): Mutex {
    x.(count := x.count + 1, holder := Nobody)
  }

  predicate MayDisinherit(k: Kernel, h: Holder) {
    h.Task? ==> h.id in k.tcb && k.tcb[h.id].mutexesHeld > 0
  }

  function DisinheritIfHeld(k: Kernel, h: Holder): Kernel
    requires MayDisinherit(k, h)
  {
    if h.Task? then Disinherit(k, h.id) else k
  }

  function WakeWaiter(k: Kernel, e: EventId): Kernel {
    if k.EventList(e) == [] then k else RemoveFromEvent(k, e)
  }

  function Give(s: System, e: EventId): System
    requires e in s.mutexes && MayDisinherit(s.k, s.mutexes[e].holder)
  {
    var x := s.mutexes[e];
    if x.count >= 1 then s
    else System(WakeWaiter(DisinheritIfHeld(s.k, x.holder), e), s.mutexes[e := Given(x)])
  }

  function Recounted(s: System, e: EventId, calls: nat): System
    requires e in s.mutexes
  {
    s.(mutexes := s.mutexes[e := s.mutexes[e].(calls := calls)])
  }

  /** The step of xQueueTakeMutexRecursive that succeeds or finds the mutex taken. */
  function TryTakeRecursive(s: System, e: EventId): System
    requires e in s.mutexes && s.k.current in s.k.tcb
  {
    var x := s.mutexes[e];
    if x.holder == Task(s.k.current) then Recounted(s, e, x.calls + 1)
    else if x.count == 0 then s
    else Recounted(TryTake(s, e), e, x.calls + 1)
  }

  /** xQueueGiveMutexRecursive. */
  function GiveRecursive(s: System, e: EventId): System
    requires e in s.mutexes && MayDisinherit(s.k, s.mutexes[e].holder)
    requires s.mutexes[e].holder == Task(s.k.current) ==> s.mutexes[e].calls > 0
  {
    var x := s.mutexes[e];
    if x.holder != Task(s.k.current) then s
    else if x.calls > 1 then Recounted(s, e, x.calls - 1)
    else Give(Recounted(s, e, 0), e)
  }

  // ---------- runs ----------

  datatype Step =
    | KernelStep(call: TaskRuns.Call)
    | NewMutex(e: EventId, recursive: bool)
    | Take(e: EventId)
    | Block(e: EventId, ticks: Tick)
    | GiveBack(e: EventId)
    | TakeAgain(e: EventId)        // xQueueTakeMutexRecursive
    | GiveOnce(e: EventId)         // xQueueGiveMutexRecursive

  /** The calls of tasks.c that any task or interrupt may make beside the mutex functions. */
  ghost predicate Beside(s: System, c: TaskRuns.Call) {
    && TaskRuns.Allowed(s.k, c)
    && !c.IncrementHeld? && !c.Inherit? && !c.Disinherit?
    && (c.PlaceOnEvent? || c.PlaceOnUnordered? || c.PlaceRestricted? ==> c.e !in s.mutexes)
    && (c.Delete? ==> s.k.tcb[c.t].mutexesHeld == 0)
  }

  /** Only the holder gives a mutex back, and no holder is deleted. */
  ghost predicate Enabled(s: System, a: Step) {
    match a
    case KernelStep(c) => Beside(s, c)
    case NewMutex(e, _) => e !in s.mutexes && s.k.EventList(e) == []
    case Take(e) => e in s.mutexes && !s.mutexes[e].recursive && s.k.IsReady(s.k.current)
    case Block(e, ticks) => e in s.mutexes && s.k.IsReady(s.k.current) && ticks > 0
    case GiveBack(e) =>
      && e in s.mutexes && !s.mutexes[e].recursive && s.k.IsReady(s.k.current)
      && s.mutexes[e].holder in {Nobody, Task(s.k.current)}
    case TakeAgain(e) => e in s.mutexes && s.mutexes[e].recursive && s.k.IsReady(s.k.current)
    case GiveOnce(e) => e in s.mutexes && s.mutexes[e].recursive && s.k.IsReady(s.k.current)
  }

  // ---------- the invariants ----------

  ghost function HeldBy(ms: map<EventId, Mutex>, t: TaskId): set<EventId> {
    set e | e in ms && ms[e].holder == Task(t)
  }

  /** uxMutexesHeld is the number of mutexes that name the task as their holder. */
  ghost predicate Accounted(tcb: map<TaskId, Tcb>, ms: map<EventId, Mutex>) {
    && (forall t :: t in tcb ==> tcb[t].mutexesHeld == |HeldBy(ms, t)|)
    && (forall e :: e in ms && ms[e].holder.Task? ==> ms[e].holder.id in tcb)
  }

  /** A mutex has a holder exactly if its count is 0; only a recursive one that is held counts calls. */
  predicate ConsistentOne(x: Mutex) {
    && x.count <= 1
    && (x.holder.Task? <==> x.count == 0)
    && (x.calls > 0 <==> x.recursive && x.holder.Task?)
  }

  ghost predicate Consistent(ms: map<EventId, Mutex>) {
    forall e :: e in ms ==> ConsistentOne(ms[e])
  }

  /** A task that holds no mutex runs at its base priority. */
  ghost predicate BaseWhenFree(tcb: map<TaskId, Tcb>) {
    forall t :: t in tcb && tcb[t].mutexesHeld == 0 ==> tcb[t].priority == tcb[t].basePriority
  }

  ghost predicate RetiredFree(tcb: map<TaskId, Tcb>, terminated: seq<TaskId>) {
    forall t :: t in terminated && t in tcb ==> tcb[t].mutexesHeld == 0
  }

  /** Every waiter's rank is on record. */
  ghost predicate Recorded(k: Kernel, ms: map<EventId, Mutex>) {
    forall e, w :: e in ms && w in k.EventList(e) ==> w in ms[e].ranks
  }

  ghost predicate Accounts(k: Kernel, ms: map<EventId, Mutex>) {
    && Accounted(k.tcb, ms)
    && Consistent(ms)
    && BaseWhenFree(k.tcb)
    && RetiredFree(k.tcb, k.terminated)
    && Recorded(k, ms)
  }

  ghost predicate Inv(s: System) {
    TaskInvariants.Inv(s.k) && Accounts(s.k, s.mutexes)
  }

  /** The holder of a mutex ranks at least as high as every task that has blocked on the mutex since the
      holder took it, as that task was then. */
  ghost predicate Repaid(tcb: map<TaskId, Tcb>, ms: map<EventId, Mutex>) {
    forall e, w :: e in ms && ms[e].holder.Task? && ms[e].holder.id in tcb && w in ms[e].owed ==>
      w in ms[e].ranks && tcb[ms[e].holder.id].priority >= ms[e].ranks[w]
  }

  /** The same of every task that still waits for the mutex, whoever held it then. */
  ghost predicate Outranked(k: Kernel, ms: map<EventId, Mutex>) {
    forall e, w :: e in ms && ms[e].holder.Task? && ms[e].holder.id in k.tcb && w in k.EventList(e) ==>
      w in ms[e].ranks && k.tcb[ms[e].holder.id].priority >= ms[e].ranks[w]
  }

  ghost function Apply(s: System, a: Step): System
    requires Inv(s) && Enabled(s, a)
  {
    match a
    case KernelStep(c) => s.(k := TaskRuns.Apply(s.k, c))
    case NewMutex(e, recursive) => s.(mutexes := s.mutexes[e := Fresh(recursive)])
    case Take(e) => TryTake(s, e)
    case Block(e, ticks) => BlockOn(s, e, ticks)
    case GiveBack(e) => HolderHolds(s, e); Give(s, e)
    case TakeAgain(e) => TryTakeRecursive(s, e)
    case GiveOnce(e) => HolderHolds(s, e); GiveRecursive(s, e)
  }

  /** The assertions of xTaskPriorityDisinherit: the holder exists and its count is not zero. */
  lemma HolderHolds(s: System, e: EventId)
    requires Inv(s) && e in s.mutexes
    ensures MayDisinherit(s.k, s.mutexes[e].holder)
  {
    var h := s.mutexes[e].holder;
    if h.Task? {
      assert e in HeldBy(s.mutexes, h.id);
    }
  }

  // ---------- every step keeps the accounts: the kernel's own calls ----------

  lemma SameRanksKeep(a: map<TaskId, Tcb>, b: map<TaskId, Tcb>, ms: map<EventId, Mutex>, terminated: seq<TaskId>)
    requires SameRanks(a, b) && Accounted(a, ms) && BaseWhenFree(a) && RetiredFree(a, terminated)
    ensures Accounted(b, ms) && BaseWhenFree(b) && RetiredFree(b, terminated)
    ensures Repaid(a, ms) ==> Repaid(b, ms)
  {
  }

  lemma ListsKeep(s: System, c: TaskRuns.Call)
    requires Inv(s) && Beside(s, c)
    ensures Recorded(TaskRuns.Apply(s.k, c), s.mutexes)
    ensures RetiredFree(s.k.tcb, TaskRuns.Apply(s.k, c).terminated)
  {
    var r := TaskRuns.Apply(s.k, c);
    forall e, w | e in s.mutexes && w in r.EventList(e)
      ensures w in s.mutexes[e].ranks
    {
      ListFrame(s.k, c, e);
    }
    if !(c.PlaceOnEvent? || c.PlaceOnUnordered? || c.PlaceRestricted?) {
      ListFrame(s.k, c, 0);
    } else {
      ListFrame(s.k, c, c.e + 1);
    }
  }

  lemma {:induction false} CreateKeeps(tcb: map<TaskId, Tcb>, ms: map<EventId, Mutex>, terminated: seq<TaskId>,
                                       t: TaskId, c: Tcb)
    requires Accounted(tcb, ms) && BaseWhenFree(tcb) && RetiredFree(tcb, terminated)
    requires t !in tcb && c.mutexesHeld == 0 && c.priority == c.basePriority
    ensures var r := tcb[t := c]; Accounted(r, ms) && BaseWhenFree(r) && RetiredFree(r, terminated)
    ensures Repaid(tcb, ms) ==> Repaid(tcb[t := c], ms)
  {
    assert HeldBy(ms, t) == {};
  }

  lemma {:induction false} ReapKeeps(tcb: map<TaskId, Tcb>, ms: map<EventId, Mutex>, terminated: seq<TaskId>, t: TaskId)
    requires Accounted(tcb, ms) && BaseWhenFree(tcb) && RetiredFree(tcb, terminated)
    requires t in tcb && tcb[t].mutexesHeld == 0
    ensures var r := tcb - {t}; Accounted(r, ms) && BaseWhenFree(r) && RetiredFree(r, terminated)
    ensures Repaid(tcb, ms) ==> Repaid(tcb - {t}, ms)
  {
    assert HeldBy(ms, t) == {};
    forall e | e in ms && ms[e].holder.Task?
      ensures ms[e].holder.id != t
    {
      assert e in HeldBy(ms, ms[e].holder.id);
    }
  }

  lemma {:induction false} PrioritySetKeeps(tcb: map<TaskId, Tcb>, ms: map<EventId, Mutex>, terminated: seq<TaskId>,
                                            t: TaskId, p: Priority)
    requires Accounted(tcb, ms) && BaseWhenFree(tcb) && RetiredFree(tcb, terminated) && t in tcb
    ensures var r := tcb[t := WithPriority(tcb[t], p)];
            Accounted(r, ms) && BaseWhenFree(r) && RetiredFree(r, terminated)
  {
  }

  lemma {:induction false} KernelStepKeeps(s: System, c: TaskRuns.Call)
    requires Inv(s) && Beside(s, c)
    ensures Inv(s.(k := TaskRuns.Apply(s.k, c)))
  {
    var k, r := s.k, TaskRuns.Apply(s.k, c);
    TaskRuns.StepKeeps(k, c);
    ListsKeep(s, c);
    if Quiet(c) {
      QuietFrame(k, c);
      SameRanksKeep(k.tcb, r.tcb, s.mutexes, r.terminated);
    } else {
      LoudFrame(k, c);
      if c.Create? {
        CreateKeeps(k.tcb, s.mutexes, r.terminated, c.t, Tcb(c.p, c.p, 0, 0, PriorityValue(c.p)));
      } else if c.Reap? {
        ReapedIsFree(s);
        ReapKeeps(k.tcb, s.mutexes, r.terminated, k.terminated[0]);
      } else {
        PrioritySetKeeps(k.tcb, s.mutexes, r.terminated, c.t, c.p);
      }
    }
  }

  lemma ReapedIsFree(s: System)
    requires Inv(s) && s.k.terminated != []
    ensures s.k.terminated[0] in s.k.tcb && s.k.tcb[s.k.terminated[0]].mutexesHeld == 0
  {
    var t := s.k.terminated[0];
    assert t in s.k.terminated;
    Places(s.k, t);
  }

  // ---------- the mutex functions ----------

  lemma {:induction false} HolderGained(tcb: map<TaskId, Tcb>, ms: map<EventId, Mutex>, e: EventId, t: TaskId, x: Mutex)
    requires Accounted(tcb, ms) && e in ms && ms[e].holder.Nobody? && t in tcb && x.holder == Task(t)
    ensures Accounted(tcb[t := tcb[t].(mutexesHeld := tcb[t].mutexesHeld + 1)], ms[e := x])
  {
    var ms' := ms[e := x];
    assert HeldBy(ms', t) == HeldBy(ms, t) + {e};
    forall u | u in tcb && u != t ensures HeldBy(ms', u) == HeldBy(ms, u) {
    }
  }

  lemma {:induction false} HolderLost(tcb: map<TaskId, Tcb>, ms: map<EventId, Mutex>, e: EventId, t: TaskId,
      x: Mutex, c: Tcb)
    requires Accounted(tcb, ms) && e in ms && ms[e].holder == Task(t) && t in tcb && x.holder.Nobody?
    requires c.mutexesHeld == tcb[t].mutexesHeld - 1
    ensures Accounted(tcb[t := c], ms[e := x])
  {
    var ms' := ms[e := x];
    assert HeldBy(ms, t) == HeldBy(ms', t) + {e};
    forall u | u in tcb && u != t ensures HeldBy(ms', u) == HeldBy(ms, u) {
    }
  }

  lemma {:induction false} HolderKept(tcb: map<TaskId, Tcb>, ms: map<EventId, Mutex>, e: EventId, x: Mutex)
    requires Accounted(tcb, ms) && x.holder == if e in ms then ms[e].holder else Nobody
    ensures Accounted(tcb, ms[e := x])
  {
    var ms' := ms[e := x];
    forall u | u in tcb ensures HeldBy(ms', u) == HeldBy(ms, u) {
    }
  }

  lemma {:induction false} NewMutexKeeps(s: System, e: EventId, recursive: bool)
    requires Inv(s) && Enabled(s, NewMutex(e, recursive))
    ensures Inv(s.(mutexes := s.mutexes[e := Fresh(recursive)]))
  {
    HolderKept(s.k.tcb, s.mutexes, e, Fresh(recursive));
  }

  /** A ready task is not on the termination list. */
  lemma ReadyIsLive(k: Kernel, t: TaskId)
    requires TaskInvariants.Inv(k) && k.IsReady(t)
    ensures t in k.tcb && t !in k.terminated
  {
    Places(k, t);
  }

  /** The waiters stay on record while they do not become more and no rank is forgotten. */
  lemma {:induction false} StillRecorded(k: Kernel, r: Kernel, ms: map<EventId, Mutex>, e: EventId, x: Mutex)
    requires Recorded(k, ms) && e in ms
    requires forall w :: w in ms[e].ranks ==> w in x.ranks
    requires forall w :: w in r.EventList(e) ==> w in x.ranks || w in k.EventList(e)
    requires forall f, w :: f != e && w in r.EventList(f) ==> w in k.EventList(f)
    ensures Recorded(r, ms[e := x])
  {
  }

  lemma {:induction false} TakenAccounts(tcb: map<TaskId, Tcb>, ms: map<EventId, Mutex>, terminated: seq<TaskId>,
                                         e: EventId, t: TaskId, x: Mutex)
    requires Accounted(tcb, ms) && BaseWhenFree(tcb) && RetiredFree(tcb, terminated)
    requires e in ms && ms[e].holder.Nobody? && t in tcb && t !in terminated && x.holder == Task(t) && x.owed == {}
    ensures var r := tcb[t := tcb[t].(mutexesHeld := tcb[t].mutexesHeld + 1)];
            && Accounted(r, ms[e := x]) && BaseWhenFree(r) && RetiredFree(r, terminated)
            && (Repaid(tcb, ms) ==> Repaid(r, ms[e := x]))
  {
    HolderGained(tcb, ms, e, t, x);
  }

  lemma StillConsistent(ms: map<EventId, Mutex>, e: EventId, x: Mutex)
    requires Consistent(ms) && ConsistentOne(x)
    ensures Consistent(ms[e := x])
  {
  }

  /** What the three functions do, as one update of the mutex. */
  lemma TakeShape(s: System, e: EventId, calls: nat)
    requires e in s.mutexes && s.k.current in s.k.tcb && s.mutexes[e].count > 0
    ensures Recounted(TryTake(s, e), e, calls)
            == System(IncrementHeld(s.k), s.mutexes[e := Taken(s.mutexes[e], s.k.current).(calls := calls)])
  {
  }

  lemma GiveShape(s: System, e: EventId)
    requires e in s.mutexes && s.mutexes[e].holder.Task? && MayDisinherit(s.k, s.mutexes[e].holder)
    requires s.mutexes[e].count == 0
    ensures Give(Recounted(s, e, 0), e)
            == System(WakeWaiter(Disinherit(s.k, s.mutexes[e].holder.id), e),
                      s.mutexes[e := Given(s.mutexes[e]).(calls := 0)])
  {
  }

  lemma {:induction false} TakeAccounts(k: Kernel, ms: map<EventId, Mutex>, e: EventId, x: Mutex)
    requires Accounts(k, ms) && k.current in k.tcb && k.current !in k.terminated
    requires e in ms && ms[e].holder.Nobody? && ConsistentOne(x)
    requires x.holder == Task(k.current) && x.owed == {} && x.ranks == ms[e].ranks
    ensures Accounts(IncrementHeld(k), ms[e := x])
    ensures Repaid(k.tcb, ms) ==> Repaid(IncrementHeld(k).tcb, ms[e := x])
  {
    TakenAccounts(k.tcb, ms, k.terminated, e, k.current, x);
    IncrementHeldFrame(k);
    StillRecorded(k, IncrementHeld(k), ms, e, x);
    StillConsistent(ms, e, x);
  }

  lemma {:induction false} TakeKeeps(s: System, e: EventId, calls: nat)
    requires Inv(s) && e in s.mutexes && s.k.IsReady(s.k.current) && s.mutexes[e].count > 0
    requires calls > 0 <==> s.mutexes[e].recursive
    ensures var r := Recounted(TryTake(s, e), e, calls);
            Inv(r) && (Repaid(s.k.tcb, s.mutexes) ==> Repaid(r.k.tcb, r.mutexes))
  {
    var k, x := s.k, Taken(s.mutexes[e], s.k.current).(calls := calls);
    ReadyIsLive(k, k.current);
    TaskRuns.StepKeeps(k, TaskRuns.IncrementHeld);
    assert ConsistentOne(s.mutexes[e]);
    TakeAccounts(k, s.mutexes, e, x);
    TakeShape(s, e, calls);
  }

  /** Inheriting leaves the calling task ready, and the waiters where they are. */
  lemma {:induction false} InheritSpares(k: Kernel, h: TaskId)
    requires TaskInvariants.Inv(k) && h in k.tcb && k.IsReady(k.current)
    ensures TaskInvariants.Inv(Inherit(k, h)) && Inherit(k, h).IsReady(k.current)
  {
    TaskRuns.StepKeeps(k, TaskRuns.Inherit(h));
    TaskSelection.NotAsideIsReady(k, k.current);
    InheritFrame(k, h);
    assert TaskSelection.NotAside(Inherit(k, h), k.current);
    TaskSelection.NotAsideIsReady(Inherit(k, h), k.current);
  }

  lemma PlaceOnEventLists(k: Kernel, e: EventId, ticks: Tick)
    requires k.current in k.tcb
    ensures var r := PlaceOnEvent(k, e, ticks);
            forall w :: w in r.EventList(e) ==> w == k.current || w in k.EventList(e)
  {
    PutMembers(k.EventList(e), InsertPos(EventValues(k.tcb, k.EventList(e)), k.tcb[k.current].eventValue), k.current);
  }

  lemma {:induction false} BlockLists(k: Kernel, e: EventId, ticks: Tick)
    requires TaskInvariants.Inv(k) && k.IsReady(k.current) && ticks > 0
    ensures var r := PlaceOnEvent(k, e, ticks);
            && (forall t :: t in r.terminated ==> t in k.terminated)
            && (forall w :: w in r.EventList(e) ==> w == k.current || w in k.EventList(e))
            && (forall f, w :: f != e && w in r.EventList(f) ==> w in k.EventList(f))
  {
    ReadyIsLive(k, k.current);
    var c := TaskRuns.PlaceOnEvent(e, ticks);
    PlaceOnEventLists(k, e, ticks);
    ListFrame(k, c, e + 1);
    forall f, w | f != e && w in PlaceOnEvent(k, e, ticks).EventList(f) ensures w in k.EventList(f) {
      ListFrame(k, c, f);
    }
  }

  /** Raising the holder of a mutex to the rank of the asking task. */
  lemma {:induction false} RaisedAccounts(tcb: map<TaskId, Tcb>, ms: map<EventId, Mutex>, terminated: seq<TaskId>,
                                          e: EventId, h: TaskId, r: map<TaskId, Tcb>, t: TaskId, p: Priority)
    requires Accounted(tcb, ms) && BaseWhenFree(tcb) && RetiredFree(tcb, terminated)
    requires e in ms && ms[e].holder == Task(h) && h in tcb && tcb[h].mutexesHeld > 0
    requires r == if tcb[h].priority >= p then tcb else tcb[h := WithInherited(tcb[h], p)]
    ensures Accounted(r, ms[e := Asked(ms[e], t, p)]) && BaseWhenFree(r) && RetiredFree(r, terminated)
    ensures Repaid(tcb, ms) ==> Repaid(r, ms[e := Asked(ms[e], t, p)])
  {
    assert Accounted(r, ms);
    HolderKept(r, ms, e, Asked(ms[e], t, p));
  }

  /** The kernel's part in blocking on a mutex: inherit, then place the calling task. */
  lemma {:induction false} BlockKernel(k: Kernel, h: TaskId, e: EventId, ticks: Tick)
    requires TaskInvariants.Inv(k) && h in k.tcb && k.IsReady(k.current) && ticks > 0
    ensures k.current in Inherit(k, h).tcb
    ensures var p, k1 := k.PriorityOf(k.current), Inherit(k, h);
            var k2 := PlaceOnEvent(k1, e, ticks);
            && TaskInvariants.Inv(k2)
            && k1.tcb == (if k.tcb[h].priority >= p then k.tcb else k.tcb[h := WithInherited(k.tcb[h], p)])
            && SameRanks(k1.tcb, k2.tcb)
            && (forall t :: t in k2.terminated ==> t in k.terminated)
            && (forall w :: w in k2.EventList(e) ==> w == k.current || w in k.EventList(e))
            && (forall f, w :: f != e && w in k2.EventList(f) ==> w in k.EventList(f))
  {
    InheritSpares(k, h);
    InheritFrame(k, h);
    PlaceKeeps(Inherit(k, h), e, ticks);
  }

  lemma {:induction false} BlockAccounts(k: Kernel, raised: map<TaskId, Tcb>, k2: Kernel, ms: map<EventId, Mutex>,
                                         e: EventId, h: TaskId, p: Priority)
    requires Accounts(k, ms) && e in ms && ms[e].holder == Task(h) && h in k.tcb && k.tcb[h].mutexesHeld > 0
    requires raised == if k.tcb[h].priority >= p then k.tcb else k.tcb[h := WithInherited(k.tcb[h], p)]
    requires SameRanks(raised, k2.tcb) && forall t :: t in k2.terminated ==> t in k.terminated
    requires forall w :: w in k2.EventList(e) ==> w == k.current || w in k.EventList(e)
    requires forall f, w :: f != e && w in k2.EventList(f) ==> w in k.EventList(f)
    ensures var ms' := ms[e := Asked(ms[e], k.current, p)];
            Accounts(k2, ms') && (Repaid(k.tcb, ms) ==> Repaid(k2.tcb, ms'))
  {
    var y := Asked(ms[e], k.current, p);
    RaisedAccounts(k.tcb, ms, k.terminated, e, h, raised, k.current, p);
    SameRanksKeep(raised, k2.tcb, ms[e := y], k.terminated);
    StillRecorded(k, k2, ms, e, y);
    StillConsistent(ms, e, y);
  }

  lemma {:induction false} BlockKeeps(s: System, e: EventId, ticks: Tick)
    requires Inv(s) && Enabled(s, Block(e, ticks)) && s.mutexes[e].holder.Task?
    ensures s.mutexes[e].holder.id in s.k.tcb
    ensures var r := BlockOn(s, e, ticks);
            Inv(r) && (Repaid(s.k.tcb, s.mutexes) ==> Repaid(r.k.tcb, r.mutexes))
  {
    var k, h, p := s.k, s.mutexes[e].holder.id, s.k.PriorityOf(s.k.current);
    HolderHolds(s, e);
    BlockKernel(k, h, e, ticks);
    var k1, y := Inherit(k, h), Asked(s.mutexes[e], k.current, p);
    var k2 := PlaceOnEvent(k1, e, ticks);
    BlockAccounts(k, k1.tcb, k2, s.mutexes, e, h, p);
    assert BlockOn(s, e, ticks) == System(k2, s.mutexes[e := y]);
  }

  lemma {:induction false} PlaceKeeps(k: Kernel, e: EventId, ticks: Tick)
    requires TaskInvariants.Inv(k) && k.IsReady(k.current) && ticks > 0
    ensures k.current in k.tcb
    ensures var r := PlaceOnEvent(k, e, ticks);
            && TaskInvariants.Inv(r) && SameRanks(k.tcb, r.tcb)
            && (forall t :: t in r.terminated ==> t in k.terminated)
            && (forall w :: w in r.EventList(e) ==> w == k.current || w in k.EventList(e))
            && (forall f, w :: f != e && w in r.EventList(f) ==> w in k.EventList(f))
  {
    ReadyIsLive(k, k.current);
    TaskRuns.StepKeeps(k, TaskRuns.PlaceOnEvent(e, ticks));
    WritesItemsFrame(k, TaskRuns.PlaceOnEvent(e, ticks));
    BlockLists(k, e, ticks);
  }

  /** A task that holds two mutexes has a held count above 1. */
  lemma HoldsTwo(tcb: map<TaskId, Tcb>, ms: map<EventId, Mutex>, e: EventId, f: EventId)
    requires Accounted(tcb, ms) && e in ms && f in ms && e != f && ms[e].holder.Task? && ms[f].holder == ms[e].holder
    ensures tcb[ms[e].holder.id].mutexesHeld > 1
  {
    var held := HeldBy(ms, ms[e].holder.id);
    assert held == {e, f} + (held - {e, f});
  }

  lemma {:induction false} LoweredAccounts(tcb: map<TaskId, Tcb>, ms: map<EventId, Mutex>, terminated: seq<TaskId>,
                                           e: EventId, t: TaskId, x: Mutex)
    requires Accounted(tcb, ms) && BaseWhenFree(tcb) && RetiredFree(tcb, terminated)
    requires e in ms && ms[e].holder == Task(t) && t in tcb && tcb[t].mutexesHeld > 0 && t !in terminated
    requires x.holder.Nobody?
    ensures var r := tcb[t := Lowered(tcb[t])];
            && Accounted(r, ms[e := x]) && BaseWhenFree(r) && RetiredFree(r, terminated)
            && (Repaid(tcb, ms) ==> Repaid(r, ms[e := x]))
  {
    HolderLost(tcb, ms, e, t, x, Lowered(tcb[t]));
    forall f | f in ms && f != e && ms[f].holder == Task(t)
      ensures Lowered(tcb[t]).priority == tcb[t].priority
    {
      HoldsTwo(tcb, ms, e, f);
    }
  }

  lemma {:induction false} WakeWaiterKeeps(k: Kernel, e: EventId)
    requires TaskInvariants.Inv(k)
    ensures TaskInvariants.Inv(WakeWaiter(k, e)) && SameRanks(k.tcb, WakeWaiter(k, e).tcb) && Fewer(k, WakeWaiter(k, e))
  {
    if k.EventList(e) != [] {
      var c := TaskRuns.RemoveFromEvent(e);
      TaskRuns.StepKeeps(k, c);
      QuietFrame(k, c);
      ListFrame(k, c, e);
      forall f, w | w in WakeWaiter(k, e).EventList(f) ensures w in k.EventList(f) {
        ListFrame(k, c, f);
      }
    }
  }

  /** Giving back, whether the mutex is recursive (its last call is then being undone) or not. */
  lemma {:induction false} GiveKeeps(s: System, e: EventId)
    requires Inv(s) && e in s.mutexes && s.k.IsReady(s.k.current) && s.mutexes[e].holder == Task(s.k.current)
    ensures MayDisinherit(s.k, s.mutexes[e].holder)
    ensures var r := Give(Recounted(s, e, 0), e);
            Inv(r) && (Repaid(s.k.tcb, s.mutexes) ==> Repaid(r.k.tcb, r.mutexes))
  {
    var k, t, x := s.k, s.k.current, Given(s.mutexes[e]).(calls := 0);
    HolderHolds(s, e);
    ReadyIsLive(k, t);
    TaskRuns.StepKeeps(k, TaskRuns.Disinherit);
    DisinheritFrame(k, t);
    var k1 := Disinherit(k, t);
    var k2 := WakeWaiter(k1, e);
    WakeWaiterKeeps(k1, e);
    LoweredAccounts(k.tcb, s.mutexes, k.terminated, e, t, x);
    SameRanksKeep(k1.tcb, k2.tcb, s.mutexes[e := x], k.terminated);
    StillRecorded(k, k2, s.mutexes, e, x);
    StillConsistent(s.mutexes, e, x);
    GiveShape(s, e);
  }

  // ---------- every step, every run ----------

  /** Not a call of vTaskPrioritySet that lowers the priority a mutex holder runs at. */
  ghost predicate Gentle(s: System, a: Step)
    requires Enabled(s, a)
  {
    a.KernelStep? && a.call.PrioritySet? ==>
      var c := s.k.tcb[a.call.t]; c.mutexesHeld == 0 || c.basePriority != c.priority || a.call.p >= c.priority
  }

  lemma {:induction false} GentleRepaid(tcb: map<TaskId, Tcb>, ms: map<EventId, Mutex>, t: TaskId, p: Priority)
    requires Accounted(tcb, ms) && Repaid(tcb, ms) && t in tcb
    requires tcb[t].mutexesHeld == 0 || tcb[t].basePriority != tcb[t].priority || p >= tcb[t].priority
    ensures Repaid(tcb[t := WithPriority(tcb[t], p)], ms)
  {
    if tcb[t].mutexesHeld == 0 {
      assert HeldBy(ms, t) == {};
      forall e | e in ms && ms[e].holder.Task? ensures ms[e].holder.id != t {
        assert e in HeldBy(ms, ms[e].holder.id);
      }
    }
  }

  lemma {:induction false} KernelStepRepaid(s: System, c: TaskRuns.Call)
    requires Inv(s) && Beside(s, c) && Gentle(s, KernelStep(c)) && Repaid(s.k.tcb, s.mutexes)
    ensures Repaid(TaskRuns.Apply(s.k, c).tcb, s.mutexes)
  {
    var k, r := s.k, TaskRuns.Apply(s.k, c);
    if Quiet(c) {
      QuietFrame(k, c);
      SameRanksKeep(k.tcb, r.tcb, s.mutexes, k.terminated);
    } else {
      LoudFrame(k, c);
      if c.Create? {
        CreateKeeps(k.tcb, s.mutexes, k.terminated, c.t, Tcb(c.p, c.p, 0, 0, PriorityValue(c.p)));
      } else if c.Reap? {
        ReapedIsFree(s);
        ReapKeeps(k.tcb, s.mutexes, k.terminated, k.terminated[0]);
      } else {
        GentleRepaid(k.tcb, s.mutexes, c.t, c.p);
      }
    }
  }

  lemma {:induction false} NewMutexRepaid(s: System, e: EventId, recursive: bool)
    requires e !in s.mutexes && Repaid(s.k.tcb, s.mutexes)
    ensures Repaid(s.k.tcb, s.mutexes[e := Fresh(recursive)])
  {
  }

  lemma {:induction false} RecountedKeeps(s: System, e: EventId, calls: nat)
    requires Inv(s) && e in s.mutexes && ConsistentOne(s.mutexes[e].(calls := calls))
    ensures Inv(Recounted(s, e, calls))
    ensures Repaid(s.k.tcb, s.mutexes) ==> Repaid(s.k.tcb, Recounted(s, e, calls).mutexes)
  {
    var x := s.mutexes[e].(calls := calls);
    HolderKept(s.k.tcb, s.mutexes, e, x);
    StillConsistent(s.mutexes, e, x);
    StillRecorded(s.k, s.k, s.mutexes, e, x);
  }

  ghost predicate Keeps(s: System, r: System) {
    Inv(r) && (Repaid(s.k.tcb, s.mutexes) ==> Repaid(r.k.tcb, r.mutexes))
  }

  lemma {:induction false} TakeStepKeeps(s: System, e: EventId)
    requires Inv(s) && Enabled(s, Take(e))
    ensures Keeps(s, TryTake(s, e))
  {
    if s.mutexes[e].count > 0 {
      TakeKeeps(s, e, 0);
      assert s.mutexes[e].calls == 0;
      assert Recounted(TryTake(s, e), e, 0) == TryTake(s, e);
    }
  }

  lemma RecountedSame(s: System, e: EventId)
    requires e in s.mutexes
    ensures Recounted(s, e, s.mutexes[e].calls) == s
  {
    assert s.mutexes[e := s.mutexes[e]] == s.mutexes;
  }

  lemma {:induction false} GiveStepKeeps(s: System, e: EventId)
    requires Inv(s) && Enabled(s, GiveBack(e))
    ensures MayDisinherit(s.k, s.mutexes[e].holder) && Keeps(s, Give(s, e))
  {
    HolderHolds(s, e);
    var x := s.mutexes[e];
    assert ConsistentOne(x) && x.calls == 0 by {
      assert ConsistentOne(x);
    }
    if x.holder.Task? {
      GiveKeeps(s, e);
      RecountedSame(s, e);
      assert Keeps(s, Give(Recounted(s, e, 0), e));
    } else {
      assert Give(s, e) == s;
    }
  }

  lemma {:induction false} TakeAgainStepKeeps(s: System, e: EventId)
    requires Inv(s) && Enabled(s, TakeAgain(e))
    ensures Keeps(s, TryTakeRecursive(s, e))
  {
    var x := s.mutexes[e];
    if x.holder == Task(s.k.current) {
      RecountedKeeps(s, e, x.calls + 1);
    } else if x.count > 0 {
      TakeKeeps(s, e, x.calls + 1);
    }
  }

  /** The comment in xQueueGiveMutexRecursive: the call count of a mutex that the caller holds is not zero. */
  lemma {:induction false} GiveOnceStepKeeps(s: System, e: EventId)
    requires Inv(s) && Enabled(s, GiveOnce(e))
    ensures MayDisinherit(s.k, s.mutexes[e].holder)
    ensures s.mutexes[e].holder == Task(s.k.current) ==> s.mutexes[e].calls > 0
    ensures Keeps(s, GiveRecursive(s, e))
  {
    var x := s.mutexes[e];
    HolderHolds(s, e);
    assert ConsistentOne(x);
    if x.holder == Task(s.k.current) {
      if x.calls > 1 {
        RecountedKeeps(s, e, x.calls - 1);
      } else {
        GiveKeeps(s, e);
      }
    }
  }

  lemma {:induction false} BlockStepKeeps(s: System, e: EventId, ticks: Tick)
    requires Inv(s) && Enabled(s, Block(e, ticks))
    ensures MayDisinherit(s.k, s.mutexes[e].holder) && Keeps(s, BlockOn(s, e, ticks))
  {
    HolderHolds(s, e);
    if s.mutexes[e].count == 0 {
      assert ConsistentOne(s.mutexes[e]);
      BlockKeeps(s, e, ticks);
    }
  }

  lemma {:induction false} MutexStepKeeps(s: System, a: Step)
    requires Inv(s) && Enabled(s, a) && !a.KernelStep? && !a.NewMutex?
    ensures Keeps(s, Apply(s, a))
  {
    if a.Block? {
      BlockStepKeeps(s, a.e, a.ticks);
    } else if a.Take? {
      TakeStepKeeps(s, a.e);
    } else if a.GiveBack? {
      GiveStepKeeps(s, a.e);
    } else if a.TakeAgain? {
      TakeAgainStepKeeps(s, a.e);
    } else {
      GiveOnceStepKeeps(s, a.e);
    }
  }

  lemma {:induction false} StepKeeps(s: System, a: Step)
    requires Inv(s) && Enabled(s, a)
    ensures Inv(Apply(s, a))
    ensures Gentle(s, a) && Repaid(s.k.tcb, s.mutexes) ==> Repaid(Apply(s, a).k.tcb, Apply(s, a).mutexes)
  {
    if a.KernelStep? {
      KernelStepKeeps(s, a.call);
      if Gentle(s, a) && Repaid(s.k.tcb, s.mutexes) {
        KernelStepRepaid(s, a.call);
      }
    } else if a.NewMutex? {
      NewMutexKeeps(s, a.e, a.recursive);
      if Repaid(s.k.tcb, s.mutexes) {
        NewMutexRepaid(s, a.e, a.recursive);
      }
    } else {
      MutexStepKeeps(s, a);
    }
  }

  ghost predicate Possible(s: System, run: seq<Step>)
    requires Inv(s)
    decreases |run|
  {
    run == [] || (Enabled(s, run[0]) && (StepKeeps(s, run[0]); Possible(Apply(s, run[0]), run[1..])))
  }

  ghost function After(s: System, run: seq<Step>): (r: System)
    requires Inv(s) && Possible(s, run)
    ensures Inv(r)
    decreases |run|
  {
    if run == [] then s else StepKeeps(s, run[0]); After(Apply(s, run[0]), run[1..])
  }

  ghost predicate AllGentle(s: System, run: seq<Step>)
    requires Inv(s) && Possible(s, run)
    decreases |run|
  {
    run != [] ==> Gentle(s, run[0]) && (StepKeeps(s, run[0]); AllGentle(Apply(s, run[0]), run[1..]))
  }

  lemma {:induction false} RunRepaid(s: System, run: seq<Step>)
    requires Inv(s) && Possible(s, run) && AllGentle(s, run) && Repaid(s.k.tcb, s.mutexes)
    ensures Repaid(After(s, run).k.tcb, After(s, run).mutexes)
    decreases |run|
  {
    if run != [] {
      StepKeeps(s, run[0]);
      RunRepaid(Apply(s, run[0]), run[1..]);
    }
  }

  function NoMutexes(idle: TaskId): System {
    System(Started(idle), map[])
  }

  lemma StartKeeps(idle: TaskId)
    ensures Inv(NoMutexes(idle)) && Repaid(NoMutexes(idle).k.tcb, map[])
  {
    TaskRuns.StartedKeeps(idle);
    assert HeldBy(map[], idle) == {};
  }

  ghost predicate PossibleFrom(idle: TaskId, run: seq<Step>) {
    StartKeeps(idle);
    Possible(NoMutexes(idle), run)
  }

  ghost function Reached(idle: TaskId, run: seq<Step>): (s: System)
    requires PossibleFrom(idle, run)
    ensures Inv(s)
  {
    StartKeeps(idle);
    After(NoMutexes(idle), run)
  }

  // ---------- the results ----------

  /** In every reachable state: a mutex has a holder exactly if its count is 0; the held count of a task is
      the number of mutexes that name it; and a task that holds none runs at its base priority. */
  lemma {:induction false} MutexAccounting(idle: TaskId, run: seq<Step>)
    requires PossibleFrom(idle, run)
    ensures var s := Reached(idle, run);
            && TaskInvariants.Inv(s.k)
            && (forall e :: e in s.mutexes ==>
                  s.mutexes[e].count <= 1 && (s.mutexes[e].holder != Nobody <==> s.mutexes[e].count == 0))
            && (forall t :: t in s.k.tcb ==> s.k.tcb[t].mutexesHeld == |HeldBy(s.mutexes, t)|)
            && (forall t :: t in s.k.tcb && s.k.tcb[t].mutexesHeld == 0 ==>
                  s.k.tcb[t].priority == s.k.tcb[t].basePriority)
  {
    var s := Reached(idle, run);
    assert forall e :: e in s.mutexes ==> ConsistentOne(s.mutexes[e]);
  }

  /** In every run in which nobody lowers a holder with vTaskPrioritySet, a holder ranks at least as high as
      each task did when it blocked on the mutex under that holder. */
  lemma {:induction false} HolderOutranksThoseItBlocks(idle: TaskId, run: seq<Step>, e: EventId, w: TaskId)
    requires PossibleFrom(idle, run) && (StartKeeps(idle); AllGentle(NoMutexes(idle), run))
    requires var s := Reached(idle, run);
             e in s.mutexes && s.mutexes[e].holder.Task? && w in s.mutexes[e].owed
    ensures var s := Reached(idle, run);
            && s.mutexes[e].holder.id in s.k.tcb && w in s.mutexes[e].ranks
            && s.k.tcb[s.mutexes[e].holder.id].priority >= s.mutexes[e].ranks[w]
  {
    StartKeeps(idle);
    RunRepaid(NoMutexes(idle), run);
  }

  /** Lowering a holder breaks that exactly if the holder is not running at an inherited priority and one of
      the tasks it blocks ranks above the new priority. */
  lemma {:induction false} PrioritySetKeepsRepaidExactlyIf(s: System, t: TaskId, p: Priority)
    requires Inv(s) && t in s.k.tcb && Repaid(s.k.tcb, s.mutexes)
    ensures Repaid(PrioritySet(s.k, t, p).tcb, s.mutexes)
            <==> (|| s.k.tcb[t].basePriority != s.k.tcb[t].priority
                  || forall e, w :: e in HeldBy(s.mutexes, t) && w in s.mutexes[e].owed ==> s.mutexes[e].ranks[w] <= p)
  {
    LoudFrame(s.k, TaskRuns.PrioritySet(t, p));
    PrioritySetRepays(s.k.tcb, s.mutexes, t, p);
    if s.k.tcb[t].basePriority == p == s.k.tcb[t].priority {
      forall e, w | e in HeldBy(s.mutexes, t) && w in s.mutexes[e].owed ensures s.mutexes[e].ranks[w] <= p {
      }
    }
  }

  lemma {:induction false} PrioritySetRepays(tcb: map<TaskId, Tcb>, ms: map<EventId, Mutex>, t: TaskId, p: Priority)
    requires Accounted(tcb, ms) && Repaid(tcb, ms) && t in tcb
    ensures Repaid(tcb[t := WithPriority(tcb[t], p)], ms)
            <==> (|| tcb[t].basePriority != tcb[t].priority
                  || forall e, w :: e in HeldBy(ms, t) && w in ms[e].owed ==> ms[e].ranks[w] <= p)
  {
    var r := tcb[t := WithPriority(tcb[t], p)];
    if Repaid(r, ms) && tcb[t].basePriority == tcb[t].priority {
      forall e, w | e in HeldBy(ms, t) && w in ms[e].owed ensures ms[e].ranks[w] <= p {
        assert ms[e].holder == Task(t);
        assert r[t].priority == p;
      }
    }
    if || tcb[t].basePriority != tcb[t].priority
       || forall e, w :: e in HeldBy(ms, t) && w in ms[e].owed ==> ms[e].ranks[w] <= p {
      forall e, w | e in ms && ms[e].holder.Task? && ms[e].holder.id in r && w in ms[e].owed
        ensures w in ms[e].ranks && r[ms[e].holder.id].priority >= ms[e].ranks[w]
      {
        if ms[e].holder.id == t {
          assert e in HeldBy(ms, t);
        }
      }
    }
  }

  // ---------- priorities of holders ----------

  /** In one step, a task that holds a mutex before and after does not lose priority. */
  ghost predicate NoneDrops(a: map<TaskId, Tcb>, b: map<TaskId, Tcb>) {
    forall t :: t in a && a[t].mutexesHeld > 0 ==>
      t in b && (b[t].mutexesHeld > 0 ==> b[t].priority >= a[t].priority)
  }

  lemma {:induction false} KernelStepDrops(s: System, c: TaskRuns.Call)
    requires Inv(s) && Beside(s, c) && Gentle(s, KernelStep(c))
    ensures NoneDrops(s.k.tcb, TaskRuns.Apply(s.k, c).tcb)
  {
    if Quiet(c) {
      QuietFrame(s.k, c);
    } else {
      LoudFrame(s.k, c);
      if c.Reap? {
        ReapedIsFree(s);
      }
    }
  }

  lemma {:induction false} GiveDrops(k: Kernel, h: TaskId, e: EventId)
    requires TaskInvariants.Inv(k) && TaskRuns.Allowed(k, TaskRuns.Disinherit) && h == k.current
    ensures NoneDrops(k.tcb, WakeWaiter(Disinherit(k, h), e).tcb)
  {
    TaskRuns.StepKeeps(k, TaskRuns.Disinherit);
    DisinheritFrame(k, h);
    WakeWaiterKeeps(Disinherit(k, h), e);
  }

  lemma {:induction false} GiveStepDrops(s: System, e: EventId)
    requires Inv(s) && e in s.mutexes && s.k.IsReady(s.k.current)
    requires s.mutexes[e].holder in {Nobody, Task(s.k.current)}
    ensures MayDisinherit(s.k, s.mutexes[e].holder)
    ensures NoneDrops(s.k.tcb, Give(s, e).k.tcb)
  {
    HolderHolds(s, e);
    assert ConsistentOne(s.mutexes[e]);
    if s.mutexes[e].holder.Task? {
      GiveDrops(s.k, s.k.current, e);
    }
  }

  lemma {:induction false} BlockDrops(s: System, e: EventId, ticks: Tick)
    requires Inv(s) && Enabled(s, Block(e, ticks))
    ensures MayDisinherit(s.k, s.mutexes[e].holder)
    ensures NoneDrops(s.k.tcb, BlockOn(s, e, ticks).k.tcb)
  {
    HolderHolds(s, e);
    assert ConsistentOne(s.mutexes[e]);
    if s.mutexes[e].count == 0 {
      BlockKernelDrops(s.k, s.mutexes[e].holder.id, e, ticks);
    }
  }

  lemma {:induction false} BlockKernelDrops(k: Kernel, h: TaskId, e: EventId, ticks: Tick)
    requires TaskInvariants.Inv(k) && h in k.tcb && k.IsReady(k.current) && ticks > 0
    ensures k.current in Inherit(k, h).tcb && NoneDrops(k.tcb, PlaceOnEvent(Inherit(k, h), e, ticks).tcb)
  {
    BlockKernel(k, h, e, ticks);
  }

  lemma IncrementHeldDrops(k: Kernel)
    requires k.current in k.tcb
    ensures NoneDrops(k.tcb, IncrementHeld(k).tcb)
  {
  }

  lemma {:induction false} PriorityNeverDrops(s: System, a: Step)
    requires Inv(s) && Enabled(s, a) && Gentle(s, a)
    ensures NoneDrops(s.k.tcb, Apply(s, a).k.tcb)
  {
    if a.KernelStep? {
      KernelStepDrops(s, a.call);
    } else if a.Block? {
      BlockDrops(s, a.e, a.ticks);
    } else if a.Take? || a.TakeAgain? {
      ReadyIsLive(s.k, s.k.current);
      IncrementHeldDrops(s.k);
    } else if a.GiveBack? {
      GiveStepDrops(s, a.e);
    } else if a.GiveOnce? {
      GiveOnceDrops(s, a.e);
    }
  }

  lemma {:induction false} GiveOnceDrops(s: System, e: EventId)
    requires Inv(s) && Enabled(s, GiveOnce(e))
    ensures MayDisinherit(s.k, s.mutexes[e].holder)
    ensures s.mutexes[e].holder == Task(s.k.current) ==> s.mutexes[e].calls > 0
    ensures NoneDrops(s.k.tcb, GiveRecursive(s, e).k.tcb)
  {
    HolderHolds(s, e);
    assert ConsistentOne(s.mutexes[e]);
    if s.mutexes[e].holder == Task(s.k.current) {
      GiveDrops(s.k, s.k.current, e);
    }
  }

  ghost predicate HoldsThroughout(s: System, run: seq<Step>, t: TaskId)
    requires Inv(s) && Possible(s, run)
    decreases |run|
  {
    && t in s.k.tcb && s.k.tcb[t].mutexesHeld > 0
    && (run != [] ==> (StepKeeps(s, run[0]); HoldsThroughout(Apply(s, run[0]), run[1..], t)))
  }

  /** Over a whole run: as long as a task holds some mutex or other, its priority does not go down. */
  lemma {:induction false} HolderKeepsItsPriority(s: System, run: seq<Step>, t: TaskId)
    requires Inv(s) && Possible(s, run) && AllGentle(s, run) && HoldsThroughout(s, run, t)
    ensures t in After(s, run).k.tcb && After(s, run).k.tcb[t].priority >= s.k.tcb[t].priority
    decreases |run|
  {
    if run != [] {
      StepKeeps(s, run[0]);
      PriorityNeverDrops(s, run[0]);
      HolderKeepsItsPriority(Apply(s, run[0]), run[1..], t);
    }
  }

  // ---------- waiters left over from an earlier holder ----------

  /** Taking a free mutex does not raise the taker to the rank of those who already wait for it. */
  ghost predicate Acquires(s: System, a: Step) {
    && (a.Take? || a.TakeAgain?) && a.e in s.mutexes
    && s.mutexes[a.e].count > 0 && s.mutexes[a.e].holder != Task(s.k.current)
  }

  /** What a step other than acquiring a mutex may change about one of them. */
  ghost predicate KeepsOutranked(k: Kernel, ms: map<EventId, Mutex>, r: Kernel, ns: map<EventId, Mutex>, e: EventId)
  {
    e in ns && ns[e].holder.Task? && ns[e].holder.id in r.tcb ==>
      forall w :: w in r.EventList(e) ==> w in ns[e].ranks && r.tcb[ns[e].holder.id].priority >= ns[e].ranks[w]
  }

  /** A mutex whose holder and records stay: fewer waiters, and a holder that does not drop. */
  lemma {:induction false} SameHolder(k: Kernel, ms: map<EventId, Mutex>, r: Kernel, ns: map<EventId, Mutex>,
      e: EventId)
    requires Outranked(k, ms) && Accounted(k.tcb, ms) && Accounted(r.tcb, ns) && NoneDrops(k.tcb, r.tcb)
    requires e in ms && e in ns && ns[e].holder == ms[e].holder && ns[e].ranks == ms[e].ranks
    requires forall w :: w in r.EventList(e) ==> w in k.EventList(e)
    ensures KeepsOutranked(k, ms, r, ns, e)
  {
    if ns[e].holder.Task? {
      assert e in HeldBy(ms, ns[e].holder.id) && e in HeldBy(ns, ns[e].holder.id);
    }
  }

  ghost predicate Untouched(k: Kernel, x: Mutex, r: Kernel, y: Mutex, e: EventId) {
    y.holder == x.holder && y.ranks == x.ranks && forall w :: w in r.EventList(e) ==> w in k.EventList(e)
  }

  lemma {:induction false} BlockShape(s: System, a: Step, e: EventId)
    requires Inv(s) && a.Block? && Enabled(s, a) && e in s.mutexes && a.e != e
    ensures MayDisinherit(s.k, s.mutexes[a.e].holder)
    ensures var r := BlockOn(s, a.e, a.ticks); e in r.mutexes && Untouched(s.k, s.mutexes[e], r.k, r.mutexes[e], e)
  {
    HolderHolds(s, a.e);
    if s.mutexes[a.e].count == 0 {
      assert ConsistentOne(s.mutexes[a.e]);
      BlockKernel(s.k, s.mutexes[a.e].holder.id, a.e, a.ticks);
    }
  }

  lemma {:induction false} GiveFewer(k: Kernel, h: TaskId, e: EventId)
    requires TaskInvariants.Inv(k) && TaskRuns.Allowed(k, TaskRuns.Disinherit) && h == k.current
    ensures Fewer(k, WakeWaiter(Disinherit(k, h), e))
  {
    TaskRuns.StepKeeps(k, TaskRuns.Disinherit);
    DisinheritFrame(k, h);
    WakeWaiterKeeps(Disinherit(k, h), e);
  }

  lemma {:induction false} GiveShapes(s: System, g: EventId, e: EventId)
    requires Inv(s) && g in s.mutexes && e in s.mutexes && s.k.IsReady(s.k.current)
    requires s.mutexes[g].holder in {Nobody, Task(s.k.current)}
    ensures MayDisinherit(s.k, s.mutexes[g].holder)
    ensures var r := Give(s, g);
            && e in r.mutexes
            && (r.mutexes[e].holder.Nobody? || Untouched(s.k, s.mutexes[e], r.k, r.mutexes[e], e))
  {
    HolderHolds(s, g);
    assert ConsistentOne(s.mutexes[g]);
    if s.mutexes[g].holder.Task? {
      GiveFewer(s.k, s.k.current, g);
    }
  }

  /** What a step other than acquiring a mutex or blocking on this one does to mutex `e`. */
  lemma {:induction false} StepShape(s: System, a: Step, e: EventId)
    requires Inv(s) && Enabled(s, a) && e in s.mutexes
    requires !(Acquires(s, a) && a.e == e) && !(a.Block? && a.e == e)
    ensures var r := Apply(s, a);
            && e in r.mutexes
            && (r.mutexes[e].holder.Nobody? || Untouched(s.k, s.mutexes[e], r.k, r.mutexes[e], e))
  {
    if a.KernelStep? {
      ListFrame(s.k, a.call, e);
    } else if a.Block? {
      BlockShape(s, a, e);
    } else if a.GiveBack? {
      GiveShapes(s, a.e, e);
    } else if a.GiveOnce? {
      HolderHolds(s, a.e);
      assert ConsistentOne(s.mutexes[a.e]);
      if s.mutexes[a.e].holder == Task(s.k.current) && s.mutexes[a.e].calls == 1 {
        GiveOnceShape(s, a.e, e);
      }
    } else if a.Take? || a.TakeAgain? {
      assert ConsistentOne(s.mutexes[a.e]);
      ReadyIsLive(s.k, s.k.current);
      IncrementHeldFrame(s.k);
    }
  }

  lemma {:induction false} GiveOnceShape(s: System, g: EventId, e: EventId)
    requires Inv(s) && g in s.mutexes && e in s.mutexes && s.k.IsReady(s.k.current)
    requires s.mutexes[g].holder == Task(s.k.current)
    ensures MayDisinherit(s.k, s.mutexes[g].holder)
    ensures var r := Give(Recounted(s, g, 0), g);
            && e in r.mutexes
            && (r.mutexes[e].holder.Nobody? || Untouched(s.k, s.mutexes[e], r.k, r.mutexes[e], e))
  {
    HolderHolds(s, g);
    assert ConsistentOne(s.mutexes[g]);
    GiveShape(s, g);
    GiveFewer(s.k, s.k.current, g);
  }

  /** The task that blocks has raised the holder to its own rank. */
  lemma {:induction false} BlockOutranks(s: System, e: EventId, ticks: Tick)
    requires Inv(s) && Enabled(s, Block(e, ticks)) && Outranked(s.k, s.mutexes)
    ensures MayDisinherit(s.k, s.mutexes[e].holder)
    ensures var r := BlockOn(s, e, ticks); KeepsOutranked(s.k, s.mutexes, r.k, r.mutexes, e)
  {
    HolderHolds(s, e);
    if s.mutexes[e].count == 0 {
      assert ConsistentOne(s.mutexes[e]);
      BlockKernel(s.k, s.mutexes[e].holder.id, e, ticks);
    }
  }

  lemma {:induction false} OtherMutexOutranked(s: System, a: Step, e: EventId)
    requires Inv(s) && Enabled(s, a) && Gentle(s, a) && Outranked(s.k, s.mutexes) && e in Apply(s, a).mutexes
    requires !(Acquires(s, a) && a.e == e)
    ensures KeepsOutranked(s.k, s.mutexes, Apply(s, a).k, Apply(s, a).mutexes, e)
  {
    var r := Apply(s, a);
    if e in s.mutexes {
      if a.Block? && a.e == e {
        BlockOutranks(s, e, a.ticks);
      } else {
        StepShape(s, a, e);
        StepKeeps(s, a);
        PriorityNeverDrops(s, a);
        if r.mutexes[e].holder.Task? {
          SameHolder(s.k, s.mutexes, r.k, r.mutexes, e);
        }
      }
    }
  }

  /** Every holder outranks all that wait for its mutex, whoever they found holding it, as long as nobody
      lowers a holder and no task acquires a mutex for which a task of higher rank still waits; and a step
      that does the latter breaks it. */
  lemma {:induction false} OutrankedExactlyIf(s: System, a: Step)
    requires Inv(s) && Enabled(s, a) && Gentle(s, a) && Outranked(s.k, s.mutexes)
    ensures Outranked(Apply(s, a).k, Apply(s, a).mutexes)
            <==> (Acquires(s, a) ==>
                    forall w :: w in s.k.EventList(a.e) ==> s.mutexes[a.e].ranks[w] <= s.k.PriorityOf(s.k.current))
  {
    var r := Apply(s, a);
    forall e | e in r.mutexes && !(Acquires(s, a) && a.e == e)
      ensures KeepsOutranked(s.k, s.mutexes, r.k, r.mutexes, e)
    {
      OtherMutexOutranked(s, a, e);
    }
    if Acquires(s, a) {
      AcquireShape(s, a);
    }
  }

  lemma {:induction false} AcquireShape(s: System, a: Step)
    requires Inv(s) && Enabled(s, a) && Acquires(s, a)
    ensures var r := Apply(s, a);
            && s.k.current in r.k.tcb && r.k.PriorityOf(s.k.current) == s.k.PriorityOf(s.k.current)
            && a.e in r.mutexes && r.mutexes[a.e].holder == Task(s.k.current)
            && r.mutexes[a.e].ranks == s.mutexes[a.e].ranks && r.k.EventList(a.e) == s.k.EventList(a.e)
  {
    ReadyIsLive(s.k, s.k.current);
    IncrementHeldFrame(s.k);
  }

  /** Every step of the run ends with holders that outrank all who wait for their mutexes. */
  ghost predicate OutrankedThroughout(s: System, run: seq<Step>)
    requires Inv(s) && Possible(s, run)
    decreases |run|
  {
    && Outranked(s.k, s.mutexes)
    && (run != [] ==> (StepKeeps(s, run[0]); OutrankedThroughout(Apply(s, run[0]), run[1..])))
  }

  /** The step acquires no mutex for which a task of higher rank than the acquiring one waits. */
  ghost predicate PassesNobody(s: System, a: Step)
    requires Inv(s)
  {
    Acquires(s, a) ==>
      forall w :: w in s.k.EventList(a.e) ==>
        w in s.mutexes[a.e].ranks && s.mutexes[a.e].ranks[w] <= s.k.PriorityOf(s.k.current)
  }

  ghost predicate NobodyPassed(s: System, run: seq<Step>)
    requires Inv(s) && Possible(s, run)
    decreases |run|
  {
    run != [] ==> PassesNobody(s, run[0]) && (StepKeeps(s, run[0]); NobodyPassed(Apply(s, run[0]), run[1..]))
  }

  lemma {:induction false} OutrankedStep(s: System, a: Step)
    requires Inv(s) && Enabled(s, a) && Gentle(s, a) && Outranked(s.k, s.mutexes)
    ensures Outranked(Apply(s, a).k, Apply(s, a).mutexes) <==> PassesNobody(s, a)
  {
    OutrankedExactlyIf(s, a);
  }

  lemma {:induction false} RunOutranked(s: System, run: seq<Step>)
    requires Inv(s) && Possible(s, run) && AllGentle(s, run) && Outranked(s.k, s.mutexes)
    ensures OutrankedThroughout(s, run) <==> NobodyPassed(s, run)
    decreases |run|
  {
    if run != [] {
      StepKeeps(s, run[0]);
      OutrankedStep(s, run[0]);
      if Outranked(Apply(s, run[0]).k, Apply(s, run[0]).mutexes) {
        RunOutranked(Apply(s, run[0]), run[1..]);
      }
    }
  }

  lemma {:induction false} OutrankedAtTheEnd(s: System, run: seq<Step>)
    requires Inv(s) && Possible(s, run) && OutrankedThroughout(s, run)
    ensures Outranked(After(s, run).k, After(s, run).mutexes)
    decreases |run|
  {
    if run != [] {
      StepKeeps(s, run[0]);
      OutrankedAtTheEnd(Apply(s, run[0]), run[1..]);
    }
  }

  /** In every run from the start in which nobody lowers a holder: each holder outranks all who wait for its mutex,
      throughout the run, exactly if no task ever acquires a mutex past a waiter of higher rank. */
  lemma {:induction false} OutrankedThroughoutExactlyIf(idle: TaskId, run: seq<Step>)
    requires PossibleFrom(idle, run) && (StartKeeps(idle); AllGentle(NoMutexes(idle), run))
    ensures (StartKeeps(idle); OutrankedThroughout(NoMutexes(idle), run) <==> NobodyPassed(NoMutexes(idle), run))
    ensures (StartKeeps(idle); NobodyPassed(NoMutexes(idle), run)) ==>
              Outranked(Reached(idle, run).k, Reached(idle, run).mutexes)
  {
    StartKeeps(idle);
    RunOutranked(NoMutexes(idle), run);
    if NobodyPassed(NoMutexes(idle), run) {
      OutrankedAtTheEnd(NoMutexes(idle), run);
    }
  }

  // ---------- runs, one step longer ----------

  /** A gentle run and one more step. */
  lemma {:induction false} OneStepMore(s: System, run: seq<Step>, a: Step)
    requires Inv(s) && Possible(s, run) && AllGentle(s, run) && Enabled(After(s, run), a) && Gentle(After(s, run), a)
    ensures Possible(s, run + [a]) && AllGentle(s, run + [a])
    ensures After(s, run + [a]) == Apply(After(s, run), a)
    decreases |run|
  {
    var longer := run + [a];
    if run == [] {
      assert longer[0] == a && longer[1..] == [];
      StepKeeps(s, a);
    } else {
      assert longer[0] == run[0] && longer[1..] == run[1..] + [a];
      StepKeeps(s, run[0]);
      OneStepMore(Apply(s, run[0]), run[1..], a);
    }
  }
}
