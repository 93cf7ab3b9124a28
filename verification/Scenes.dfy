/** Concrete runs that end where a property fails under the condition its theorem names. */
module Scenes {
  import opened Ticks
  import opened ListModel
  import opened Tasks
  import opened TaskInvariants
  import opened TaskRuns
  import WakeOrders
  import Mutexes

  // ---------- kernels with two priorities in use ----------

  /** The ready lists with tasks at the two lowest priorities. */
  function Lists(low: ReadyList, high: ReadyList): ReadyLists {
    [low, high, Ring([], 0), Ring([], 0), Ring([], 0)]
  }

  /** A kernel in which nobody has been delayed or deleted, and no tick has come. */
  function Small(tcb: map<TaskId, Tcb>, low: ReadyList, high: ReadyList, suspended: seq<TaskId>, pending: seq<TaskId>,
                 events: map<EventId, seq<TaskId>>, current: TaskId, suspensions: nat, wanted: bool, top: Priority,
                 count: nat): Kernel {
    Kernel(tcb, Lists(low, high), [], [], suspended, [], pending, events, current, 0, 0, MAX_DELAY, suspensions, 0,
           wanted, top, count, 0)
  }

  function Plain(p: Priority): Tcb {
    Tcb(p, p, 0, 0, PriorityValue(p))
  }

  lemma UnlistLists(low: ReadyList, high: ReadyList, t: TaskId)
    ensures UnlistReady(Lists(low, high), t) == Lists(Unlink(low, t), Unlink(high, t))
  {
  }

  lemma MakeReadyHigh(k: Kernel, low: ReadyList, high: ReadyList, t: TaskId)
    requires k.ready == Lists(low, high) && k.PriorityOf(t) == 1
    ensures MakeReady(k, t)
            == k.(ready := Lists(low, high.InsertEnd(t)), topReady := if 1 > k.topReady then 1 else k.topReady)
  {
    assert k.ready[1 := high.InsertEnd(t)] == Lists(low, high.InsertEnd(t));
  }

  lemma MakeReadyLow(k: Kernel, low: ReadyList, high: ReadyList, t: TaskId)
    requires k.ready == Lists(low, high) && k.PriorityOf(t) == 0
    ensures MakeReady(k, t) == k.(ready := Lists(low.InsertEnd(t), high))
  {
    assert k.ready[0 := low.InsertEnd(t)] == Lists(low.InsertEnd(t), high);
  }

  lemma StartedIsSmall()
    ensures Started(0) == Small(map[0 := Plain(0)], Ring([0], 0), Ring([], 0), [], [], map[], 0, 0, false, 0, 1)
  {
    var k := Kernel(map[0 := Plain(0)], NoneReady(), [], [], [], [], [], map[], 0, 0, 0, MAX_DELAY, 0, 0, false,
                    0, 1, 0);
    assert NoneReady() == Lists(Ring([], 0), Ring([], 0));
    MakeReadyLow(k, Ring([], 0), Ring([], 0), 0);
    assert Ring([], 0).InsertEnd(0) == Ring([0], 0);
  }

  lemma CreateHigh(k: Kernel, low: ReadyList, high: ReadyList, t: TaskId)
    requires k.ready == Lists(low, high) && k.topReady <= 1
    ensures Tasks.Create(k, t, 1)
            == k.(tcb := k.tcb[t := Plain(1)], ready := Lists(low, high.InsertEnd(t)), topReady := 1,
                  taskCount := k.taskCount + 1)
  {
    MakeReadyHigh(k.(tcb := k.tcb[t := Plain(1)], taskCount := k.taskCount + 1), low, high, t);
  }

  lemma SwitchHigh(k: Kernel, low: ReadyList, high: ReadyList)
    requires k.ready == Lists(low, high) && high.items != [] && k.topReady == 1 && k.suspensions == 0
    ensures Tasks.SwitchContext(k)
            == k.(yieldPending := false, ready := Lists(low, high.Next()), current := high.Next().Indexed())
  {
    assert k.ready[1 := high.Next()] == Lists(low, high.Next());
    assert HighestReady(k.ready, 1) == 1;
  }

  /** vTaskPlaceOnEventList without a timeout. */
  lemma PlaceForever(k: Kernel, low: ReadyList, high: ReadyList, e: EventId)
    requires k.ready == Lists(low, high) && k.current in k.tcb
    requires k.delayed == k.overflow == k.terminated == [] && k.current !in k.suspended
    ensures Tasks.PlaceOnEvent(k, e, MAX_DELAY)
            == k.(events := k.events[e := InsertByEvent(k.tcb, k.EventList(e), k.current)],
                  ready := Lists(Unlink(low, k.current), Unlink(high, k.current)),
                  suspended := k.suspended + [k.current])
  {
    UnlistLists(low, high, k.current);
    WithoutAbsent(k.suspended, k.current);
  }

  // ---------- a waiter whose priority is raised ----------

  /** The calls by which tasks 1 and 2, of priority 1, come to wait for event 7 in that order. */
  const TWO_WAIT: seq<Call> := [Create(1, 1), SwitchContext, PlaceOnEvent(7, MAX_DELAY), Create(2, 1), SwitchContext,
                                PlaceOnEvent(7, MAX_DELAY)]

  const ONE: map<TaskId, Tcb> := map[0 := Plain(0), 1 := Plain(1)]
  const TWO: map<TaskId, Tcb> := map[0 := Plain(0), 1 := Plain(1), 2 := Plain(1)]

  lemma OneWaits()
    ensures var k1 := Started(0);
            var k2 := Tasks.Create(k1, 1, 1);
            var k3 := Tasks.SwitchContext(k2);
            && k3 == Small(ONE, Ring([0], 0), Ring([1], 1), [], [], map[], 1, 0, false, 1, 2)
            && Tasks.PlaceOnEvent(k3, 7, MAX_DELAY)
               == Small(ONE, Ring([0], 0), Ring([], 0), [1], [], map[7 := [1]], 1, 0, false, 1, 2)
  {
    StartedIsSmall();
    var low, high := Ring([0], 0), Ring([], 0);
    CreateHigh(Started(0), low, high, 1);
    assert high.InsertEnd(1) == Ring([1], 0);
    assert Started(0).tcb[1 := Plain(1)] == ONE;
    var k2 := Tasks.Create(Started(0), 1, 1);
    SwitchHigh(k2, low, Ring([1], 0));
    var k3 := Tasks.SwitchContext(k2);
    PlaceForever(k3, low, Ring([1], 1), 7);
    assert Unlink(low, 1) == low;
    assert Unlink(Ring([1], 1), 1) == high;
    assert InsertByEvent(ONE, [], 1) == [1];
  }

  lemma TheOtherWaits()
    ensures var k1 := Small(ONE, Ring([0], 0), Ring([], 0), [1], [], map[7 := [1]], 1, 0, false, 1, 2);
            var k2 := Tasks.Create(k1, 2, 1);
            var k3 := Tasks.SwitchContext(k2);
            && k3 == Small(TWO, Ring([0], 0), Ring([2], 1), [1], [], map[7 := [1]], 2, 0, false, 1, 3)
            && Tasks.PlaceOnEvent(k3, 7, MAX_DELAY)
               == Small(TWO, Ring([0], 0), Ring([], 0), [1, 2], [], map[7 := [1, 2]], 2, 0, false, 1, 3)
  {
    var k1 := Small(ONE, Ring([0], 0), Ring([], 0), [1], [], map[7 := [1]], 1, 0, false, 1, 2);
    var low, high := Ring([0], 0), Ring([], 0);
    CreateHigh(k1, low, high, 2);
    assert high.InsertEnd(2) == Ring([2], 0);
    assert k1.tcb[2 := Plain(1)] == TWO;
    var k2 := Tasks.Create(k1, 2, 1);
    SwitchHigh(k2, low, Ring([2], 0));
    var k3 := Tasks.SwitchContext(k2);
    PlaceForever(k3, low, Ring([2], 1), 7);
    assert Unlink(low, 2) == low;
    assert Unlink(Ring([2], 1), 2) == high;
    assert EventValues(TWO, [1]) == [4];
    assert InsertPos([4], 4) == 1;
    assert InsertByEvent(TWO, [1], 2) == [1, 2];
  }

  lemma OneMore(k: Kernel, c: Call, rest: seq<Call>, e: EventId)
    requires Allowed(k, c) && WakeOrders.Orderly(k, c, e)
    requires Legal(Apply(k, c), rest) && WakeOrders.AllOrderly(Apply(k, c), rest, e)
    ensures Legal(k, [c] + rest) && WakeOrders.AllOrderly(k, [c] + rest, e)
    ensures After(k, [c] + rest) == After(Apply(k, c), rest)
  {
    var calls := [c] + rest;
    assert calls[0] == c && calls[1..] == rest;
  }

  /** A task that is switched to and blocks, at the front of a run ... */
  lemma {:induction false} RunningPrefix(k: Kernel, rest: seq<Call>)
    requires var r := Tasks.SwitchContext(k);
             && r.IsReady(r.current) && WakeOrders.HasOwnItem(r.tcb, r.current)
             && Legal(Tasks.PlaceOnEvent(r, 7, MAX_DELAY), rest)
             && WakeOrders.AllOrderly(Tasks.PlaceOnEvent(r, 7, MAX_DELAY), rest, 7)
    ensures var calls := [SwitchContext] + ([PlaceOnEvent(7, MAX_DELAY)] + rest);
            && Legal(k, calls) && WakeOrders.AllOrderly(k, calls, 7)
            && After(k, calls) == After(Tasks.PlaceOnEvent(Tasks.SwitchContext(k), 7, MAX_DELAY), rest)
  {
    OneMore(Apply(k, SwitchContext), PlaceOnEvent(7, MAX_DELAY), rest, 7);
    OneMore(k, SwitchContext, [PlaceOnEvent(7, MAX_DELAY)] + rest, 7);
  }

  /** ... and before that is created. */
  lemma {:induction false} BlockingPrefix(k: Kernel, t: TaskId, rest: seq<Call>)
    requires t !in k.tcb
    requires var r := Tasks.SwitchContext(Tasks.Create(k, t, 1));
             && r.current == t && r.IsReady(t) && WakeOrders.HasOwnItem(r.tcb, t)
             && Legal(Tasks.PlaceOnEvent(r, 7, MAX_DELAY), rest)
             && WakeOrders.AllOrderly(Tasks.PlaceOnEvent(r, 7, MAX_DELAY), rest, 7)
    ensures var calls := [Create(t, 1), SwitchContext, PlaceOnEvent(7, MAX_DELAY)] + rest;
            && Legal(k, calls) && WakeOrders.AllOrderly(k, calls, 7)
            && After(k, calls)
               == After(Tasks.PlaceOnEvent(Tasks.SwitchContext(Tasks.Create(k, t, 1)), 7, MAX_DELAY), rest)
  {
    var later := [SwitchContext] + ([PlaceOnEvent(7, MAX_DELAY)] + rest);
    RunningPrefix(Apply(k, Create(t, 1)), rest);
    OneMore(k, Create(t, 1), later, 7);
    assert [Create(t, 1)] + later == [Create(t, 1), SwitchContext, PlaceOnEvent(7, MAX_DELAY)] + rest;
  }

  lemma {:induction false} BothWait()
    ensures Legal(Started(0), TWO_WAIT) && WakeOrders.AllOrderly(Started(0), TWO_WAIT, 7)
    ensures After(Started(0), TWO_WAIT)
            == Small(TWO, Ring([0], 0), Ring([], 0), [1, 2], [], map[7 := [1, 2]], 2, 0, false, 1, 3)
  {
    StartedIsSmall();
    OneWaits();
    TheOtherWaits();
    var k := Small(ONE, Ring([0], 0), Ring([], 0), [1], [], map[7 := [1]], 1, 0, false, 1, 2);
    var half := [Create(2, 1), SwitchContext, PlaceOnEvent(7, MAX_DELAY)];
    BlockingPrefix(k, 2, []);
    assert half + [] == half;
    BlockingPrefix(Started(0), 1, half);
    assert [Create(1, 1), SwitchContext, PlaceOnEvent(7, MAX_DELAY)] + half == TWO_WAIT;
  }

  /** Raising the second waiter to priority 2 leaves the first, of priority 1, the one that is woken. */
  lemma {:induction false} RaisedWaiterIsPassedOver()
    ensures Legal(Started(0), TWO_WAIT) && WakeOrders.AllOrderly(Started(0), TWO_WAIT, 7)
    ensures var k, a := After(Started(0), TWO_WAIT), WakeOrders.Arrivals(Started(0), TWO_WAIT, 7, map[], 0);
            && k.EventList(7) == [1, 2] && 2 in k.tcb
            && WakeOrders.HeadIsNext(k, [1, 2], a)
            && !WakeOrders.HeadIsNext(Tasks.PrioritySet(k, 2, 2), [1, 2], a)
            && Tasks.RemoveFromEvent(Tasks.PrioritySet(k, 2, 2), 7).EventList(7) == [2]
  {
    BothWait();
    WakeOrders.WakesMostUrgent(0, TWO_WAIT, 7);
    var k, a := After(Started(0), TWO_WAIT), WakeOrders.Arrivals(Started(0), TWO_WAIT, 7, map[], 0);
    StartedKeeps(0);
    RunKeeps(Started(0), TWO_WAIT);
    WakeOrders.PriorityChangeDoesNotResort(k, 7, 2, 2);
    var r := Tasks.PrioritySet(k, 2, 2);
    WakeOrders.PriorityChangeFrame(k, 2, 2);
    assert r.PriorityOf(1) == 1 && r.PriorityOf(2) == 2;
    assert !WakeOrders.Before(r, a, [1, 2][0], [1, 2][1]);
  }

  // ---------- a mutex taken past a waiter ----------

  ghost predicate Leads(run: seq<Mutexes.Step>, s: Mutexes.System) {
    && Mutexes.PossibleFrom(0, run) && Mutexes.Reached(0, run) == s
    && (Mutexes.StartKeeps(0); Mutexes.AllGentle(Mutexes.NoMutexes(0), run))
  }

  lemma Further(run: seq<Mutexes.Step>, s: Mutexes.System, a: Mutexes.Step)
    requires Leads(run, s) && Mutexes.Enabled(s, a) && Mutexes.Gentle(s, a)
    ensures Mutexes.Inv(s) && Leads(run + [a], Mutexes.Apply(s, a))
  {
    Mutexes.StartKeeps(0);
    Mutexes.OneStepMore(Mutexes.NoMutexes(0), run, a);
  }

  lemma FurtherCall(run: seq<Mutexes.Step>, s: Mutexes.System, c: Call, k: Kernel)
    requires Leads(run, s) && Mutexes.Beside(s, c) && !c.PrioritySet? && Apply(s.k, c) == k
    ensures Leads(run + [Mutexes.KernelStep(c)], s.(k := k))
  {
    Further(run, s, Mutexes.KernelStep(c));
  }

  lemma FurtherTake(run: seq<Mutexes.Step>, s: Mutexes.System, e: EventId, r: Mutexes.System)
    requires Leads(run, s) && Mutexes.Enabled(s, Mutexes.Take(e)) && s.k.current in s.k.tcb
    requires Mutexes.TryTake(s, e) == r
    ensures Leads(run + [Mutexes.Take(e)], r)
  {
    Further(run, s, Mutexes.Take(e));
  }

  lemma FurtherBlock(run: seq<Mutexes.Step>, s: Mutexes.System, e: EventId, r: Mutexes.System)
    requires Leads(run, s) && Mutexes.Enabled(s, Mutexes.Block(e, MAX_DELAY)) && s.k.current in s.k.tcb
    requires s.mutexes[e].holder.Task? ==> s.mutexes[e].holder.id in s.k.tcb
    requires Mutexes.BlockOn(s, e, MAX_DELAY) == r
    ensures Leads(run + [Mutexes.Block(e, MAX_DELAY)], r)
  {
    Further(run, s, Mutexes.Block(e, MAX_DELAY));
  }

  lemma FurtherGive(run: seq<Mutexes.Step>, s: Mutexes.System, e: EventId, r: Mutexes.System)
    requires Leads(run, s) && Mutexes.Enabled(s, Mutexes.GiveBack(e))
    requires Mutexes.MayDisinherit(s.k, s.mutexes[e].holder) && Mutexes.Give(s, e) == r
    ensures Leads(run + [Mutexes.GiveBack(e)], r)
  {
    Further(run, s, Mutexes.GiveBack(e));
  }

  /** The idle task holds mutex 7 at its own priority, or at the inherited priority 1. */
  const HOLDING: Tcb := Tcb(0, 0, 1, 0, PriorityValue(0))
  const RAISED: Tcb := Tcb(1, 0, 1, 0, PriorityValue(1))

  function Held(holder: TaskId, ranks: map<TaskId, Priority>): Mutexes.Mutex {
    Mutexes.Mutex(Mutexes.Task(holder), 0, 0, false, ranks, ranks.Keys)
  }

  function Free(ranks: map<TaskId, Priority>): Mutexes.Mutex {
    Mutexes.Mutex(Mutexes.Nobody, 1, 0, false, ranks, ranks.Keys)
  }

  /** Task 0 takes the mutex, tasks 1 and 2 block on it, and 0 gives it back with the scheduler suspended. */
  const GIVEN_BACK: seq<Mutexes.Step> :=
    [Mutexes.NewMutex(7, false), Mutexes.Take(7),
     Mutexes.KernelStep(Create(1, 1)), Mutexes.KernelStep(SwitchContext), Mutexes.Block(7, MAX_DELAY),
     Mutexes.KernelStep(Create(2, 1)), Mutexes.KernelStep(SwitchContext), Mutexes.Block(7, MAX_DELAY),
     Mutexes.KernelStep(SwitchContext), Mutexes.KernelStep(SuspendAll), Mutexes.GiveBack(7)]

  function HeldByIdle(): Mutexes.System {
    Mutexes.System(Small(map[0 := HOLDING], Ring([0], 0), Ring([], 0), [], [], map[], 0, 0, false, 0, 1),
                   map[7 := Held(0, map[])])
  }

  function FirstBlocked(): Mutexes.System {
    Mutexes.System(Small(map[0 := RAISED, 1 := Plain(1)], Ring([], 0), Ring([0], 1), [1], [], map[7 := [1]], 1, 0,
                         false, 1, 2),
                   map[7 := Held(0, map[1 := 1])])
  }

  function BothBlocked(current: TaskId, suspensions: nat, index: nat): Mutexes.System
    requires index <= 1
  {
    Mutexes.System(Small(map[0 := RAISED, 1 := Plain(1), 2 := Plain(1)], Ring([], 0), Ring([0], index), [1, 2], [],
                         map[7 := [1, 2]], current, suspensions, false, 1, 3),
                   map[7 := Held(0, map[1 := 1, 2 := 1])])
  }

  function LeftOver(): Mutexes.System {
    Mutexes.System(Small(TWO, Ring([0], 0), Ring([], 0), [1, 2], [1], map[7 := [2]], 0, 1, true, 1, 3),
                   map[7 := Free(map[1 := 1, 2 := 1])])
  }

  lemma {:induction false} MutexIsMade()
    ensures Leads([Mutexes.NewMutex(7, false)], Mutexes.System(Started(0), map[7 := Free(map[])]))
  {
    Mutexes.StartKeeps(0);
    assert Leads([], Mutexes.NoMutexes(0));
    Further([], Mutexes.NoMutexes(0), Mutexes.NewMutex(7, false));
    assert [] + [Mutexes.NewMutex(7, false)] == [Mutexes.NewMutex(7, false)];
  }

  lemma {:induction false} IdleTakes(run: seq<Mutexes.Step>)
    requires Leads(run, Mutexes.System(Started(0), map[7 := Free(map[])]))
    ensures Leads(run + [Mutexes.Take(7)], HeldByIdle())
  {
    StartedIsSmall();
    FurtherTake(run, Mutexes.System(Started(0), map[7 := Free(map[])]), 7, HeldByIdle());
  }

  /** The kernel after task `t` of priority 1 was created and the next one switched to. */
  function WithNew(k: Kernel, t: TaskId, low: ReadyList, high: ReadyList): Kernel
    requires high.InsertEnd(t).items != []
  {
    var l := high.InsertEnd(t).Next();
    k.(tcb := k.tcb[t := Plain(1)], topReady := 1, taskCount := k.taskCount + 1, yieldPending := false,
       ready := Lists(low, l), current := l.Indexed())
  }

  lemma {:induction false} CreateAndRun(run: seq<Mutexes.Step>, s: Mutexes.System, t: TaskId, low: ReadyList,
                                       high: ReadyList)
    requires Leads(run, s) && s.k.ready == Lists(low, high) && s.k.topReady <= 1 && s.k.suspensions == 0
    requires t !in s.k.tcb && high.InsertEnd(t).items != []
    ensures Leads(run + [Mutexes.KernelStep(Create(t, 1))] + [Mutexes.KernelStep(SwitchContext)],
                  s.(k := WithNew(s.k, t, low, high)))
  {
    CreateHigh(s.k, low, high, t);
    var k := Tasks.Create(s.k, t, 1);
    FurtherCall(run, s, Create(t, 1), k);
    SwitchHigh(k, low, high.InsertEnd(t));
    FurtherCall(run + [Mutexes.KernelStep(Create(t, 1))], s.(k := k), SwitchContext, Tasks.SwitchContext(k));
  }

  function FirstRunning(): Mutexes.System {
    Mutexes.System(Small(map[0 := HOLDING, 1 := Plain(1)], Ring([0], 0), Ring([1], 1), [], [], map[], 1, 0, false,
                         1, 2),
                   map[7 := Held(0, map[])])
  }

  lemma {:induction false} FirstIsNew(k: Kernel)
    requires k == HeldByIdle().k
    ensures Ring([], 0).InsertEnd(1).items != [] && WithNew(k, 1, Ring([0], 0), Ring([], 0)) == FirstRunning().k
  {
    assert Ring([], 0).InsertEnd(1) == Ring([1], 0);
    assert k.tcb[1 := Plain(1)] == FirstRunning().k.tcb;
  }

  lemma {:induction false} FirstRuns(run: seq<Mutexes.Step>)
    requires Leads(run, HeldByIdle())
    ensures Leads(run + [Mutexes.KernelStep(Create(1, 1))] + [Mutexes.KernelStep(SwitchContext)], FirstRunning())
  {
    FirstIsNew(HeldByIdle().k);
    CreateAndRun(run, HeldByIdle(), 1, Ring([0], 0), Ring([], 0));
  }

  lemma {:induction false} FirstBlocks(run: seq<Mutexes.Step>)
    requires Leads(run, FirstRunning())
    ensures Leads(run + [Mutexes.Block(7, MAX_DELAY)], FirstBlocked())
  {
    FirstAsks(FirstRunning());
    FurtherBlock(run, FirstRunning(), 7, FirstBlocked());
  }

  lemma {:induction false} FirstAsks(s: Mutexes.System)
    requires s == FirstRunning()
    ensures Mutexes.Enabled(s, Mutexes.Block(7, MAX_DELAY)) && Mutexes.BlockOn(s, 7, MAX_DELAY) == FirstBlocked()
  {
    FirstInherits(s.k);
    assert Mutexes.Asked(s.mutexes[7], 1, 1) == FirstBlocked().mutexes[7];
  }

  lemma FirstInherits(k: Kernel)
    requires k == Small(map[0 := HOLDING, 1 := Plain(1)], Ring([0], 0), Ring([1], 1), [], [], map[], 1, 0, false, 1, 2)
    ensures Tasks.PlaceOnEvent(Tasks.Inherit(k, 0), 7, MAX_DELAY) == FirstBlocked().k
  {
    var k1 := Unlist(k.(tcb := k.tcb[0 := RAISED]), 0);
    UnlistLists(Ring([0], 0), Ring([1], 1), 0);
    assert Unlink(Ring([0], 0), 0) == Ring([], 0) && Unlink(Ring([1], 1), 0) == Ring([1], 1);
    MakeReadyHigh(k1, Ring([], 0), Ring([1], 1), 0);
    assert Ring([1], 1).InsertEnd(0) == Ring([0, 1], 2);
    var k2 := Tasks.Inherit(k, 0);
    assert k2 == k.(tcb := k.tcb[0 := RAISED], ready := Lists(Ring([], 0), Ring([0, 1], 2)));
    PlaceForever(k2, Ring([], 0), Ring([0, 1], 2), 7);
    assert Unlink(Ring([], 0), 1) == Ring([], 0) && Unlink(Ring([0, 1], 2), 1) == Ring([0], 1);
    assert InsertByEvent(k2.tcb, [], 1) == [1];
  }

  function SecondRunning(): Mutexes.System {
    Mutexes.System(Small(map[0 := RAISED, 1 := Plain(1), 2 := Plain(1)], Ring([], 0), Ring([2, 0], 1), [1], [],
                         map[7 := [1]], 2, 0, false, 1, 3),
                   map[7 := Held(0, map[1 := 1])])
  }

  lemma {:induction false} SecondIsNew(k: Kernel)
    requires k == FirstBlocked().k
    ensures Ring([0], 1).InsertEnd(2).items != [] && WithNew(k, 2, Ring([], 0), Ring([0], 1)) == SecondRunning().k
  {
    assert Ring([0], 1).InsertEnd(2) == Ring([2, 0], 2);
    assert k.tcb[2 := Plain(1)] == SecondRunning().k.tcb;
  }

  lemma {:induction false} SecondRuns(run: seq<Mutexes.Step>)
    requires Leads(run, FirstBlocked())
    ensures Leads(run + [Mutexes.KernelStep(Create(2, 1))] + [Mutexes.KernelStep(SwitchContext)], SecondRunning())
  {
    SecondIsNew(FirstBlocked().k);
    CreateAndRun(run, FirstBlocked(), 2, Ring([], 0), Ring([0], 1));
  }

  lemma {:induction false} SecondBlocks(run: seq<Mutexes.Step>)
    requires Leads(run, SecondRunning())
    ensures Leads(run + [Mutexes.Block(7, MAX_DELAY)], BothBlocked(2, 0, 0))
  {
    SecondAsks(SecondRunning());
    FurtherBlock(run, SecondRunning(), 7, BothBlocked(2, 0, 0));
  }

  lemma {:induction false} SecondJoins(k: Kernel)
    requires k == SecondRunning().k
    ensures Tasks.PlaceOnEvent(k, 7, MAX_DELAY) == BothBlocked(2, 0, 0).k
  {
    PlaceForever(k, Ring([], 0), Ring([2, 0], 1), 7);
    assert Unlink(Ring([], 0), 2) == Ring([], 0) && Unlink(Ring([2, 0], 1), 2) == Ring([0], 0);
    assert EventValues(k.tcb, [1]) == [4];
    assert InsertPos([4], 4) == 1;
    assert InsertByEvent(k.tcb, [1], 2) == [1, 2];
  }

  lemma {:induction false} SecondAsks(s: Mutexes.System)
    requires s == SecondRunning()
    ensures Mutexes.Enabled(s, Mutexes.Block(7, MAX_DELAY)) && Mutexes.BlockOn(s, 7, MAX_DELAY) == BothBlocked(2, 0, 0)
  {
    SecondJoins(s.k);
    assert Tasks.Inherit(s.k, 0) == s.k;
    assert Mutexes.Asked(s.mutexes[7], 2, 1) == BothBlocked(2, 0, 0).mutexes[7];
  }

  lemma {:induction false} HolderRuns(run: seq<Mutexes.Step>)
    requires Leads(run, BothBlocked(2, 0, 0))
    ensures Leads(run + [Mutexes.KernelStep(SwitchContext)] + [Mutexes.KernelStep(SuspendAll)], BothBlocked(0, 1, 1))
  {
    SwitchHigh(BothBlocked(2, 0, 0).k, Ring([], 0), Ring([0], 0));
    FurtherCall(run, BothBlocked(2, 0, 0), SwitchContext, BothBlocked(0, 0, 1).k);
    FurtherCall(run + [Mutexes.KernelStep(SwitchContext)], BothBlocked(0, 0, 1), SuspendAll, BothBlocked(0, 1, 1).k);
  }

  lemma {:induction false} HolderGives(run: seq<Mutexes.Step>)
    requires Leads(run, BothBlocked(0, 1, 1))
    ensures Leads(run + [Mutexes.GiveBack(7)], LeftOver())
  {
    var s, r := BothBlocked(0, 1, 1), LeftOver();
    FirstIsPending(s);
    FurtherGive(run, s, 7, r);
  }

  lemma {:induction false} FirstIsPending(s: Mutexes.System)
    requires s == BothBlocked(0, 1, 1)
    ensures Mutexes.MayDisinherit(s.k, s.mutexes[7].holder) && Mutexes.Give(s, 7) == LeftOver()
    ensures Mutexes.Enabled(s, Mutexes.GiveBack(7))
  {
    var k := Tasks.Disinherit(s.k, 0);
    HolderIsLowered(s.k);
    assert Without([1, 2], 1) == [2];
    assert Unevent(k, 1) == k.(events := map[7 := [2]]);
    assert Tasks.RemoveFromEvent(k, 7) == LeftOver().k;
  }

  lemma {:induction false} HolderIsLowered(k: Kernel)
    requires k == BothBlocked(0, 1, 1).k
    ensures Tasks.Disinherit(k, 0) == k.(tcb := TWO, ready := Lists(Ring([0], 0), Ring([], 0)))
  {
    var u := Unlist(k, 0).(tcb := k.tcb[0 := WithBase(RAISED)]);
    UnlistLists(Ring([], 0), Ring([0], 1), 0);
    assert Unlink(Ring([], 0), 0) == Ring([], 0) && Unlink(Ring([0], 1), 0) == Ring([], 0);
    assert Without([1, 2], 0) == [1, 2];
    assert u.tcb == TWO;
    MakeReadyLow(u, Ring([], 0), Ring([], 0), 0);
    assert Ring([], 0).InsertEnd(0) == Ring([0], 0);
  }

  lemma {:induction false} RunToFirstBlocked()
    ensures Leads(([Mutexes.NewMutex(7, false)] + [Mutexes.Take(7)]) + [Mutexes.KernelStep(Create(1, 1))]
                  + [Mutexes.KernelStep(SwitchContext)] + [Mutexes.Block(7, MAX_DELAY)], FirstBlocked())
  {
    MutexIsMade();
    var run := [Mutexes.NewMutex(7, false)] + [Mutexes.Take(7)];
    IdleTakes([Mutexes.NewMutex(7, false)]);
    FirstRuns(run);
    FirstBlocks(run + [Mutexes.KernelStep(Create(1, 1))] + [Mutexes.KernelStep(SwitchContext)]);
  }

  /** The run up to there, after which vTaskPrioritySet on the holder makes its event item out of date. */
  lemma {:induction false} InheritedItemGoesStale()
    ensures exists run :: Leads(run, FirstBlocked())
    ensures var k := FirstBlocked().k;
            && 0 in k.tcb && WakeOrders.ItemsCurrent(k.tcb)
            && !WakeOrders.ItemsCurrent(Tasks.PrioritySet(k, 0, 2).tcb)
  {
    RunToFirstBlocked();
    var k := FirstBlocked().k;
    WakeOrders.PriorityChangeFrame(k, 0, 2);
    WakeOrders.PrioritySetKeepsItemExactlyIf(RAISED, 2);
    assert Tasks.PrioritySet(k, 0, 2).tcb[0] == WithPriority(RAISED, 2);
  }

  lemma {:induction false} RunFromFirstBlocked(run: seq<Mutexes.Step>)
    requires Leads(run, FirstBlocked())
    ensures Leads(run + [Mutexes.KernelStep(Create(2, 1))] + [Mutexes.KernelStep(SwitchContext)]
                  + [Mutexes.Block(7, MAX_DELAY)] + [Mutexes.KernelStep(SwitchContext)]
                  + [Mutexes.KernelStep(SuspendAll)] + [Mutexes.GiveBack(7)], LeftOver())
  {
    SecondRuns(run);
    var r := run + [Mutexes.KernelStep(Create(2, 1))] + [Mutexes.KernelStep(SwitchContext)];
    SecondBlocks(r);
    HolderRuns(r + [Mutexes.Block(7, MAX_DELAY)]);
    HolderGives(r + [Mutexes.Block(7, MAX_DELAY)] + [Mutexes.KernelStep(SwitchContext)]
                + [Mutexes.KernelStep(SuspendAll)]);
  }

  lemma GivenBackInParts(run: seq<Mutexes.Step>)
    requires run == ([Mutexes.NewMutex(7, false)] + [Mutexes.Take(7)]) + [Mutexes.KernelStep(Create(1, 1))]
                    + [Mutexes.KernelStep(SwitchContext)] + [Mutexes.Block(7, MAX_DELAY)]
    ensures run + [Mutexes.KernelStep(Create(2, 1))] + [Mutexes.KernelStep(SwitchContext)]
            + [Mutexes.Block(7, MAX_DELAY)] + [Mutexes.KernelStep(SwitchContext)]
            + [Mutexes.KernelStep(SuspendAll)] + [Mutexes.GiveBack(7)] == GIVEN_BACK
  {
  }

  lemma {:induction false} RunToLeftOver()
    ensures Leads(GIVEN_BACK, LeftOver())
  {
    RunToFirstBlocked();
    var run := ([Mutexes.NewMutex(7, false)] + [Mutexes.Take(7)]) + [Mutexes.KernelStep(Create(1, 1))]
               + [Mutexes.KernelStep(SwitchContext)] + [Mutexes.Block(7, MAX_DELAY)];
    RunFromFirstBlocked(run);
    GivenBackInParts(run);
  }

  /** A run after which the idle task takes the free mutex although task 2, of rank 1, still waits for it: before
      that step every holder outranks those who wait for its mutex, after it one does not. */
  lemma {:induction false} LeftOverWaiterIsOutranked()
    ensures Leads(GIVEN_BACK, LeftOver()) && Mutexes.Enabled(LeftOver(), Mutexes.Take(7))
    ensures Mutexes.Inv(LeftOver()) && Mutexes.Outranked(LeftOver().k, LeftOver().mutexes)
    ensures var r := Mutexes.Apply(LeftOver(), Mutexes.Take(7));
            Leads(GIVEN_BACK + [Mutexes.Take(7)], r) && !Mutexes.Outranked(r.k, r.mutexes)
  {
    RunToLeftOver();
    Further(GIVEN_BACK, LeftOver(), Mutexes.Take(7));
    LeftOverTaken(LeftOver());
  }

  lemma {:induction false} LeftOverTaken(s: Mutexes.System)
    requires s == LeftOver() && Mutexes.Inv(s)
    ensures Mutexes.Outranked(s.k, s.mutexes) && Mutexes.Enabled(s, Mutexes.Take(7))
    ensures !Mutexes.Outranked(Mutexes.Apply(s, Mutexes.Take(7)).k, Mutexes.Apply(s, Mutexes.Take(7)).mutexes)
  {
    Mutexes.OutrankedExactlyIf(s, Mutexes.Take(7));
    assert 2 in s.k.EventList(7) && s.mutexes[7].ranks[2] > s.k.PriorityOf(s.k.current);
  }

  // ---------- a holder whose priority is lowered ----------

  /** Task 1 takes mutex 7, and task 2 of the same priority blocks on it. */
  const HOLDER: Tcb := Tcb(1, 1, 1, 0, PriorityValue(1))

  function Holding(): Mutexes.System {
    Mutexes.System(Small(map[0 := Plain(0), 1 := HOLDER], Ring([0], 0), Ring([1], 1), [], [], map[], 1, 0, false, 1, 2),
                   map[7 := Held(1, map[])])
  }

  function Asking(): Mutexes.System {
    Mutexes.System(Small(map[0 := Plain(0), 1 := HOLDER, 2 := Plain(1)], Ring([0], 0), Ring([2, 1], 1), [], [], map[],
                         2, 0, false, 1, 3),
                   map[7 := Held(1, map[])])
  }

  function Waiting(): Mutexes.System {
    Mutexes.System(Small(map[0 := Plain(0), 1 := HOLDER, 2 := Plain(1)], Ring([0], 0), Ring([1], 0), [2], [],
                         map[7 := [2]], 2, 0, false, 1, 3),
                   map[7 := Held(1, map[2 := 1])])
  }

  lemma {:induction false} TaskTakes(run: seq<Mutexes.Step>)
    requires Leads(run, Mutexes.System(Started(0), map[7 := Free(map[])]))
    ensures Leads(run + [Mutexes.KernelStep(Create(1, 1))] + [Mutexes.KernelStep(SwitchContext)] + [Mutexes.Take(7)],
                  Holding())
  {
    StartedIsSmall();
    OneIsNew(Started(0));
    var s := Mutexes.System(Started(0), map[7 := Free(map[])]);
    CreateAndRun(run, s, 1, Ring([0], 0), Ring([], 0));
    var longer := run + [Mutexes.KernelStep(Create(1, 1))] + [Mutexes.KernelStep(SwitchContext)];
    TaskMayTake(s.(k := WithNew(s.k, 1, Ring([0], 0), Ring([], 0))));
    FurtherTake(longer, s.(k := WithNew(s.k, 1, Ring([0], 0), Ring([], 0))), 7, Holding());
  }

  lemma {:induction false} OneIsNew(k: Kernel)
    requires k == Small(map[0 := Plain(0)], Ring([0], 0), Ring([], 0), [], [], map[], 0, 0, false, 0, 1)
    ensures Ring([], 0).InsertEnd(1).items != []
    ensures WithNew(k, 1, Ring([0], 0), Ring([], 0))
            == Small(ONE, Ring([0], 0), Ring([1], 1), [], [], map[], 1, 0, false, 1, 2)
  {
    assert Ring([], 0).InsertEnd(1) == Ring([1], 0);
    assert k.tcb[1 := Plain(1)] == ONE;
  }

  lemma {:induction false} TaskMayTake(s: Mutexes.System)
    requires s.k == Small(ONE, Ring([0], 0), Ring([1], 1), [], [], map[], 1, 0, false, 1, 2)
    requires s.mutexes == map[7 := Free(map[])]
    ensures Mutexes.Enabled(s, Mutexes.Take(7)) && Mutexes.TryTake(s, 7) == Holding()
  {
    assert ONE[1 := HOLDER] == Holding().k.tcb;
    assert Tasks.IncrementHeld(s.k) == Holding().k;
    assert Mutexes.Taken(Free(map[]), 1) == Held(1, map[]);
    assert 1 in s.k.ready[1].items;
  }

  lemma {:induction false} OtherIsNew(k: Kernel)
    requires k == Holding().k
    ensures Ring([1], 1).InsertEnd(2).items != [] && WithNew(k, 2, Ring([0], 0), Ring([1], 1)) == Asking().k
  {
    assert Ring([1], 1).InsertEnd(2) == Ring([2, 1], 2);
    assert k.tcb[2 := Plain(1)] == Asking().k.tcb;
  }

  lemma {:induction false} OtherBlocks(run: seq<Mutexes.Step>)
    requires Leads(run, Holding())
    ensures Leads(run + [Mutexes.KernelStep(Create(2, 1))] + [Mutexes.KernelStep(SwitchContext)]
                  + [Mutexes.Block(7, MAX_DELAY)], Waiting())
  {
    OtherIsNew(Holding().k);
    CreateAndRun(run, Holding(), 2, Ring([0], 0), Ring([1], 1));
    OtherAsks(Asking());
    var longer := run + [Mutexes.KernelStep(Create(2, 1))] + [Mutexes.KernelStep(SwitchContext)];
    FurtherBlock(longer, Asking(), 7, Waiting());
  }

  lemma {:induction false} OtherAsks(s: Mutexes.System)
    requires s == Asking()
    ensures Mutexes.Enabled(s, Mutexes.Block(7, MAX_DELAY)) && Mutexes.BlockOn(s, 7, MAX_DELAY) == Waiting()
  {
    PlaceForever(s.k, Ring([0], 0), Ring([2, 1], 1), 7);
    assert Unlink(Ring([0], 0), 2) == Ring([0], 0) && Unlink(Ring([2, 1], 1), 2) == Ring([1], 0);
    assert InsertByEvent(s.k.tcb, [], 2) == [2];
    assert Tasks.Inherit(s.k, 1) == s.k;
    assert Mutexes.Asked(s.mutexes[7], 2, 1) == Waiting().mutexes[7];
  }

  const LOWERED: seq<Mutexes.Step> :=
    [Mutexes.NewMutex(7, false), Mutexes.KernelStep(Create(1, 1)), Mutexes.KernelStep(SwitchContext), Mutexes.Take(7),
     Mutexes.KernelStep(Create(2, 1)), Mutexes.KernelStep(SwitchContext), Mutexes.Block(7, MAX_DELAY)]

  lemma {:induction false} RunToWaiting()
    ensures Leads(LOWERED, Waiting())
  {
    var make, run, switch := [Mutexes.NewMutex(7, false)], [Mutexes.KernelStep(Create(1, 1))],
                             [Mutexes.KernelStep(SwitchContext)];
    MutexIsMade();
    TaskTakes(make);
    OtherBlocks(make + run + switch + [Mutexes.Take(7)]);
    LoweredInParts(make + run + switch + [Mutexes.Take(7)]);
  }

  lemma LoweredInParts(run: seq<Mutexes.Step>)
    requires run == [Mutexes.NewMutex(7, false)] + [Mutexes.KernelStep(Create(1, 1))]
                    + [Mutexes.KernelStep(SwitchContext)] + [Mutexes.Take(7)]
    ensures run + [Mutexes.KernelStep(Create(2, 1))] + [Mutexes.KernelStep(SwitchContext)]
            + [Mutexes.Block(7, MAX_DELAY)] == LOWERED
  {
  }

  /** A run after which vTaskPrioritySet lowers the holder below the task that it blocks. */
  lemma {:induction false} LoweredHolderIsOutranked()
    ensures Leads(LOWERED, Waiting()) && Mutexes.Inv(Waiting())
    ensures Mutexes.Repaid(Waiting().k.tcb, Waiting().mutexes)
    ensures !Mutexes.Repaid(Tasks.PrioritySet(Waiting().k, 1, 0).tcb, Waiting().mutexes)
  {
    RunToWaiting();
    LedToIsSound(LOWERED, Waiting());
    LoweringBreaks(Waiting());
  }

  lemma LedToIsSound(run: seq<Mutexes.Step>, s: Mutexes.System)
    requires Leads(run, s)
    ensures Mutexes.Inv(s)
  {
  }

  lemma {:induction false} LoweringBreaks(s: Mutexes.System)
    requires s == Waiting() && Mutexes.Inv(s)
    ensures Mutexes.Repaid(s.k.tcb, s.mutexes) && !Mutexes.Repaid(Tasks.PrioritySet(s.k, 1, 0).tcb, s.mutexes)
  {
    Mutexes.PrioritySetKeepsRepaidExactlyIf(s, 1, 0);
    assert 7 in Mutexes.HeldBy(s.mutexes, 1) && 2 in s.mutexes[7].owed && s.mutexes[7].ranks[2] == 1;
  }
}
