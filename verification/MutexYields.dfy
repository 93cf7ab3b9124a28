/** The context switch that giving a mutex back may call for, and the one case in which it is forgotten. */
module MutexYields {
  import opened Ticks
  import opened ListModel
  import opened Tasks
  import opened TaskInvariants
  import opened TaskRuns
  import opened TaskFrames
  import opened TaskSelection
  import opened TaskStates
  import opened Preemption
  import opened Scenes
  import Mutexes
  import MutexQueues

  /** Whether the running task, which gives mutex `e` back, yields. */
  ghost predicate GiveAsks(k: Kernel, e: EventId)
    requires Allowed(k, Disinherit)
  {
    MutexQueues.YieldsAfter(Tasks.Disinherit(k, k.current), e, MutexQueues.ReturnsToBase(k, Mutexes.Task(k.current)))
  }

  /** The running task returns to its base priority, the first waiter is no higher than that, and another task that is
      ready is. */
  ghost predicate Forgets(k: Kernel, e: EventId)
    requires k.current in k.tcb
  {
    var base := k.tcb[k.current].basePriority;
    && MutexQueues.ReturnsToBase(k, Mutexes.Task(k.current))
    && k.EventList(e) != [] && k.PriorityOf(k.EventList(e)[0]) <= base
    && exists x :: x in CensusOf(k).Ready() && x != k.current && k.PriorityOf(x) > base
  }

  lemma {:induction false} WaiterIsAnother(k: Kernel, e: EventId)
    requires Inv(k) && k.IsReady(k.current) && k.EventList(e) != []
    ensures k.EventList(e)[0] != k.current
  {
    assert k.EventList(e)[0] in k.events[e];
    Places(k, k.current);
  }

  lemma DisinheritSides(k: Kernel)
    requires Allowed(k, Disinherit)
    ensures var d := Tasks.Disinherit(k, k.current);
            && d.events == k.events && d.current == k.current && d.yieldPending == k.yieldPending
            && d.suspensions == k.suspensions
  {
  }

  /** Waking a waiter that is no higher than the running task makes no difference to whether that one is the highest. */
  lemma {:induction false} WakingKeepsHighest(d: Kernel, e: EventId)
    requires Inv(d) && d.EventList(e) != [] && d.PriorityOf(d.EventList(e)[0]) <= d.PriorityOf(d.current)
    ensures var r := Tasks.RemoveFromEvent(d, e);
            && (Highest(r, r.current) <==> Highest(d, d.current)) && r.yieldPending == d.yieldPending
  {
    var r, t := Tasks.RemoveFromEvent(d, e), d.EventList(e)[0];
    WakingSides(d, e);
    StepKeeps(d, RemoveFromEvent(e));
    RemoveMoves(d, e);
    WaiterExists(d, e);
    OneMoreReady(d.tcb, CensusOf(d), CensusOf(r), t, d.PriorityOf(d.current));
    HighestByCensus(d, d.current);
    HighestByCensus(r, d.current);
  }

  lemma WaiterExists(d: Kernel, e: EventId)
    requires Inv(d) && d.EventList(e) != []
    ensures d.EventList(e)[0] in d.tcb
  {
    WaiterIsLive(d, e, d.EventList(e)[0]);
  }

  /** One more ready task, no higher than `p`. */
  lemma OneMoreReady(tcb: map<TaskId, Tcb>, n: Census, m: Census, t: TaskId, p: Priority)
    requires (m == n || m == Woken(n, {t})) && t in tcb && tcb[t].priority <= p
    ensures NoneAbove(tcb, m.Ready(), p) <==> NoneAbove(tcb, n.Ready(), p)
  {
    WokenReady(n, m, t);
  }

  lemma WakingSides(d: Kernel, e: EventId)
    requires d.EventList(e) != []
    ensures var r := Tasks.RemoveFromEvent(d, e);
            && r.current == d.current && r.tcb == d.tcb
            && r.yieldPending == (d.yieldPending || d.PriorityOf(d.EventList(e)[0]) > d.PriorityOf(d.current))
  {
  }

  lemma WokenReady(n: Census, m: Census, t: TaskId)
    requires m == n || m == Woken(n, {t})
    ensures forall x :: x in n.Ready() ==> x in m.Ready()
    ensures forall x :: x in m.Ready() ==> x in n.Ready() || x == t
  {
  }

  /** The running task, back at its base priority, is the highest exactly if no other ready task is above that. */
  lemma {:induction false} LoweredIsHighestExactlyIf(k: Kernel)
    requires Inv(k) && Allowed(k, Disinherit) && MutexQueues.ReturnsToBase(k, Mutexes.Task(k.current))
    ensures var d, base := Tasks.Disinherit(k, k.current), k.tcb[k.current].basePriority;
            && d.PriorityOf(k.current) == base
            && (Highest(d, k.current)
                <==> forall x :: x in CensusOf(k).Ready() && x != k.current ==> k.PriorityOf(x) <= base)
  {
    var d, ready := Tasks.Disinherit(k, k.current), CensusOf(k).Ready();
    DisinheritFrame(k, k.current);
    StepKeeps(k, Disinherit);
    RewritingMoves(k, Disinherit);
    HighestByCensus(d, k.current);
    OthersAbove(k, ready, Lowered(k.tcb[k.current]));
  }

  lemma OthersAbove(k: Kernel, ready: set<TaskId>, c: Tcb)
    requires k.current in k.tcb && ready <= k.tcb.Keys
    ensures NoneAbove(k.tcb[k.current := c], ready, c.priority)
            <==> forall x :: x in ready && x != k.current ==> k.PriorityOf(x) <= c.priority
  {
    var tcb := k.tcb[k.current := c];
    if NoneAbove(tcb, ready, c.priority) {
      forall x | x in ready && x != k.current ensures k.PriorityOf(x) <= c.priority {
        assert x in tcb && tcb[x] == k.tcb[x];
      }
    }
  }

  /** With no return to the base priority, nothing can be forgotten. */
  lemma {:induction false} HeldOnIsRightful(k: Kernel, e: EventId)
    requires Inv(k) && Allowed(k, Disinherit) && Rightful(k)
    requires !MutexQueues.ReturnsToBase(k, Mutexes.Task(k.current))
    ensures Rightful(Mutexes.WakeWaiter(Tasks.Disinherit(k, k.current), e))
  {
    var d := Tasks.Disinherit(k, k.current);
    StepKeeps(k, Disinherit);
    StepKeepsRightful(k, Disinherit);
    WakingIsRightful(d, e);
  }

  lemma {:induction false} WakingIsRightful(d: Kernel, e: EventId)
    requires Inv(d) && Rightful(d)
    ensures Rightful(Mutexes.WakeWaiter(d, e))
  {
    if d.EventList(e) != [] {
      StepKeepsRightful(d, RemoveFromEvent(e));
    }
  }

  lemma {:induction false} LoweredAsks(k: Kernel, e: EventId)
    requires Inv(k) && Allowed(k, Disinherit) && MutexQueues.ReturnsToBase(k, Mutexes.Task(k.current))
    ensures GiveAsks(k, e)
            <==> k.EventList(e) == [] || k.PriorityOf(k.EventList(e)[0]) > k.tcb[k.current].basePriority
    ensures var d := Tasks.Disinherit(k, k.current);
            && d.EventList(e) == k.EventList(e)
            && (k.EventList(e) != [] ==> d.PriorityOf(k.EventList(e)[0]) == k.PriorityOf(k.EventList(e)[0]))
  {
    DisinheritFrame(k, k.current);
    DisinheritSides(k);
    if k.EventList(e) != [] {
      WaiterIsAnother(k, e);
    }
  }

  /** Giving a mutex back keeps the running task the highest, or asks for a switch, exactly if that case does not arise:
      with a waiter to wake, xQueueGenericSend looks at the waiter alone. */
  lemma {:induction false} GiveKeepsRightfulExactlyIf(k: Kernel, e: EventId)
    requires Inv(k) && Allowed(k, Disinherit) && Highest(k, k.current) && !k.yieldPending
    ensures GiveAsks(k, e) || Rightful(Mutexes.WakeWaiter(Tasks.Disinherit(k, k.current), e)) <==> !Forgets(k, e)
  {
    if !MutexQueues.ReturnsToBase(k, Mutexes.Task(k.current)) {
      HeldOnIsRightful(k, e);
    } else {
      LoweredGive(k, e);
    }
  }

  lemma {:induction false} LoweredGive(k: Kernel, e: EventId)
    requires Inv(k) && Allowed(k, Disinherit) && !k.yieldPending
    requires MutexQueues.ReturnsToBase(k, Mutexes.Task(k.current))
    ensures GiveAsks(k, e) || Rightful(Mutexes.WakeWaiter(Tasks.Disinherit(k, k.current), e)) <==> !Forgets(k, e)
  {
    var d := Tasks.Disinherit(k, k.current);
    LoweredAsks(k, e);
    if !GiveAsks(k, e) {
      LoweredIsHighestExactlyIf(k);
      StepKeeps(k, Disinherit);
      DisinheritSides(k);
      WakingKeepsHighest(d, e);
    }
  }

  // ---------- a run in which it is forgotten ----------

  /** The idle task holds mutexes 7 and 8, at its own priority or at the inherited priority 1. */
  const TWICE: Tcb := Tcb(0, 0, 2, 0, PriorityValue(0))
  const RAISED_TWICE: Tcb := Tcb(1, 0, 2, 0, PriorityValue(1))

  function With(k: Kernel, seven: Mutexes.Mutex, eight: Mutexes.Mutex): Mutexes.System {
    Mutexes.System(k, map[7 := seven, 8 := eight])
  }

  function HoldsTwo(): Kernel {
    Small(map[0 := TWICE], Ring([0], 0), Ring([], 0), [], [], map[], 0, 0, false, 0, 1)
  }

  lemma {:induction false} TwoTaken()
    ensures Leads([Mutexes.NewMutex(7, false)] + [Mutexes.NewMutex(8, false)] + [Mutexes.Take(7)] + [Mutexes.Take(8)],
                  With(HoldsTwo(), Held(0, map[]), Held(0, map[])))
  {
    MutexIsMade();
    var run := [Mutexes.NewMutex(7, false)];
    EightIsMade(run);
    SevenIsTaken(run + [Mutexes.NewMutex(8, false)]);
    EightIsTaken(run + [Mutexes.NewMutex(8, false)] + [Mutexes.Take(7)]);
  }

  lemma {:induction false} EightIsMade(run: seq<Mutexes.Step>)
    requires Leads(run, Mutexes.System(Started(0), map[7 := Free(map[])]))
    ensures Leads(run + [Mutexes.NewMutex(8, false)], With(Started(0), Free(map[]), Free(map[])))
  {
    Further(run, Mutexes.System(Started(0), map[7 := Free(map[])]), Mutexes.NewMutex(8, false));
  }

  function HoldsOne(): Kernel {
    Small(map[0 := HOLDING], Ring([0], 0), Ring([], 0), [], [], map[], 0, 0, false, 0, 1)
  }

  lemma {:induction false} SevenIsTaken(run: seq<Mutexes.Step>)
    requires Leads(run, With(Started(0), Free(map[]), Free(map[])))
    ensures Leads(run + [Mutexes.Take(7)], With(HoldsOne(), Held(0, map[]), Free(map[])))
  {
    var s, r := With(Started(0), Free(map[]), Free(map[])), With(HoldsOne(), Held(0, map[]), Free(map[]));
    StartedIsSmall();
    Taking(s, 7, HOLDING, r);
    FurtherTake(run, s, 7, r);
  }

  lemma {:induction false} EightIsTaken(run: seq<Mutexes.Step>)
    requires Leads(run, With(HoldsOne(), Held(0, map[]), Free(map[])))
    ensures Leads(run + [Mutexes.Take(8)], With(HoldsTwo(), Held(0, map[]), Held(0, map[])))
  {
    var s, r := With(HoldsOne(), Held(0, map[]), Free(map[])), With(HoldsTwo(), Held(0, map[]), Held(0, map[]));
    Taking(s, 8, TWICE, r);
    FurtherTake(run, s, 8, r);
  }

  /** The idle task takes a mutex that nobody has asked for. */
  lemma {:induction false} Taking(s: Mutexes.System, e: EventId, c: Tcb, r: Mutexes.System)
    requires s.k.current == 0 && 0 in s.k.tcb && 0 in s.k.ready[0].items && s.k.tcb[0].priority == 0
    requires e in s.mutexes && s.mutexes[e] == Free(map[])
    requires c == s.k.tcb[0].(mutexesHeld := s.k.tcb[0].mutexesHeld + 1)
    requires r.k == s.k.(tcb := s.k.tcb[0 := c]) && r.mutexes == s.mutexes[e := Held(0, map[])]
    ensures Mutexes.Enabled(s, Mutexes.Take(e)) && Mutexes.TryTake(s, e) == r
  {
    assert Mutexes.Taken(Free(map[]), 0) == Held(0, map[]);
    assert Tasks.IncrementHeld(s.k) == r.k;
  }

  // ---------- task 2, of priority 0, blocks on mutex 8 ----------

  function SecondReady(index: nat, current: TaskId): Kernel
    requires index <= 2
  {
    Small(map[0 := TWICE, 2 := Plain(0)], Ring([0, 2], index), Ring([], 0), [], [], map[], current, 0, false, 0, 2)
  }

  lemma CreateLow(k: Kernel)
    requires k == HoldsTwo()
    ensures Tasks.Create(k, 2, 0) == SecondReady(0, 0)
  {
    var m := k.(tcb := k.tcb[2 := Plain(0)], taskCount := k.taskCount + 1);
    MakeReadyLow(m, Ring([0], 0), Ring([], 0), 2);
    assert Ring([0], 0).InsertEnd(2) == Ring([0, 2], 0);
    assert m.tcb == map[0 := TWICE, 2 := Plain(0)];
  }

  lemma SwitchLow(k: Kernel, low: ReadyList)
    requires k.ready == Lists(low, Ring([], 0)) && low.items != [] && k.topReady == 0 && k.suspensions == 0
    ensures Tasks.SwitchContext(k)
            == k.(yieldPending := false, ready := Lists(low.Next(), Ring([], 0)), current := low.Next().Indexed())
  {
    assert k.ready[0 := low.Next()] == Lists(low.Next(), Ring([], 0));
  }

  lemma {:induction false} SecondMade(run: seq<Mutexes.Step>, x: Mutexes.Mutex)
    requires Leads(run, With(HoldsTwo(), x, x))
    ensures Leads(run + [Mutexes.KernelStep(Create(2, 0))], With(SecondReady(0, 0), x, x))
  {
    CreateLow(HoldsTwo());
    FurtherCall(run, With(HoldsTwo(), x, x), Create(2, 0), SecondReady(0, 0));
  }

  lemma {:induction false} SwitchedLow(run: seq<Mutexes.Step>, k: Kernel, r: Kernel, x: Mutexes.Mutex)
    requires Leads(run, With(k, x, x)) && Tasks.SwitchContext(k) == r
    ensures Leads(run + [Mutexes.KernelStep(SwitchContext)], With(r, x, x))
  {
    FurtherCall(run, With(k, x, x), SwitchContext, r);
  }

  lemma {:induction false} TwoSwitches()
    ensures Tasks.SwitchContext(SecondReady(0, 0)) == SecondReady(1, 0)
    ensures Tasks.SwitchContext(SecondReady(1, 0)) == SecondReady(2, 2)
  {
    SwitchLow(SecondReady(0, 0), Ring([0, 2], 0));
    SwitchLow(SecondReady(1, 0), Ring([0, 2], 1));
  }

  lemma {:induction false} SecondRunsLow(run: seq<Mutexes.Step>)
    requires Leads(run, With(HoldsTwo(), Held(0, map[]), Held(0, map[])))
    ensures Leads(run + [Mutexes.KernelStep(Create(2, 0))] + [Mutexes.KernelStep(SwitchContext)]
                  + [Mutexes.KernelStep(SwitchContext)], With(SecondReady(2, 2), Held(0, map[]), Held(0, map[])))
  {
    var x, longer := Held(0, map[]), run + [Mutexes.KernelStep(Create(2, 0))];
    SecondMade(run, x);
    TwoSwitches();
    SwitchedLow(longer, SecondReady(0, 0), SecondReady(1, 0), x);
    SwitchedLow(longer + [Mutexes.KernelStep(SwitchContext)], SecondReady(1, 0), SecondReady(2, 2), x);
  }

  function SecondWaits(): Kernel {
    Small(map[0 := TWICE, 2 := Plain(0)], Ring([0], 1), Ring([], 0), [2], [], map[8 := [2]], 2, 0, false, 0, 2)
  }

  lemma {:induction false} SecondJoinsEight(k: Kernel)
    requires k == SecondReady(2, 2)
    ensures Tasks.PlaceOnEvent(Tasks.Inherit(k, 0), 8, MAX_DELAY) == SecondWaits()
  {
    assert Tasks.Inherit(k, 0) == k;
    PlaceForever(k, Ring([0, 2], 2), Ring([], 0), 8);
    assert Unlink(Ring([], 0), 2) == Ring([], 0);
    assert Without([0, 2], 2) == [0] && Unlink(Ring([0, 2], 2), 2) == Ring([0], 1);
    assert InsertByEvent(k.tcb, [], 2) == [2];
  }

  lemma {:induction false} SecondBlocksOnEight(run: seq<Mutexes.Step>)
    requires Leads(run, With(SecondReady(2, 2), Held(0, map[]), Held(0, map[])))
    ensures Leads(run + [Mutexes.Block(8, MAX_DELAY)], With(SecondWaits(), Held(0, map[]), Held(0, map[2 := 0])))
  {
    var s, r := With(SecondReady(2, 2), Held(0, map[]), Held(0, map[])),
                With(SecondWaits(), Held(0, map[]), Held(0, map[2 := 0]));
    SecondAsksForEight(s, r);
    FurtherBlock(run, s, 8, r);
  }

  lemma {:induction false} SecondAsksForEight(s: Mutexes.System, r: Mutexes.System)
    requires s == With(SecondReady(2, 2), Held(0, map[]), Held(0, map[]))
    requires r == With(SecondWaits(), Held(0, map[]), Held(0, map[2 := 0]))
    ensures Mutexes.Enabled(s, Mutexes.Block(8, MAX_DELAY)) && Mutexes.BlockOn(s, 8, MAX_DELAY) == r
  {
    SecondJoinsEight(s.k);
    assert Mutexes.Asked(s.mutexes[8], 2, 0) == r.mutexes[8];
  }

  // ---------- task 1, of priority 1, blocks on mutex 7 ----------

  function FirstRunsHigh(): Kernel {
    Small(map[0 := TWICE, 1 := Plain(1), 2 := Plain(0)], Ring([0], 1), Ring([1], 1), [2], [], map[8 := [2]], 1, 0,
          false, 1, 3)
  }

  lemma {:induction false} FirstIsNewBeside(k: Kernel)
    requires k == SecondWaits()
    ensures Ring([], 0).InsertEnd(1).items != [] && WithNew(k, 1, Ring([0], 1), Ring([], 0)) == FirstRunsHigh()
  {
    assert Ring([], 0).InsertEnd(1) == Ring([1], 0);
    assert k.tcb[1 := Plain(1)] == FirstRunsHigh().tcb;
  }

  lemma {:induction false} FirstIsRun(run: seq<Mutexes.Step>)
    requires Leads(run, With(SecondWaits(), Held(0, map[]), Held(0, map[2 := 0])))
    ensures Leads(run + [Mutexes.KernelStep(Create(1, 1))] + [Mutexes.KernelStep(SwitchContext)],
                  With(FirstRunsHigh(), Held(0, map[]), Held(0, map[2 := 0])))
  {
    FirstIsNewBeside(SecondWaits());
    CreateAndRun(run, With(SecondWaits(), Held(0, map[]), Held(0, map[2 := 0])), 1, Ring([0], 1), Ring([], 0));
  }

  function BothWaitFor(current: TaskId): Kernel {
    Small(map[0 := RAISED_TWICE, 1 := Plain(1), 2 := Plain(0)], Ring([], 0), Ring([0], 1), [2, 1], [],
          map[8 := [2], 7 := [1]], current, 0, false, 1, 3)
  }

  lemma {:induction false} FirstRaises(k: Kernel)
    requires k == FirstRunsHigh()
    ensures Tasks.Inherit(k, 0) == k.(tcb := k.tcb[0 := RAISED_TWICE], ready := Lists(Ring([], 0), Ring([0, 1], 2)))
  {
    var k1 := Unlist(k.(tcb := k.tcb[0 := RAISED_TWICE]), 0);
    UnlistLists(Ring([0], 1), Ring([1], 1), 0);
    assert Unlink(Ring([0], 1), 0) == Ring([], 0) && Unlink(Ring([1], 1), 0) == Ring([1], 1);
    assert Without([2], 0) == [2];
    MakeReadyHigh(k1, Ring([], 0), Ring([1], 1), 0);
    assert Ring([1], 1).InsertEnd(0) == Ring([0, 1], 2);
  }

  lemma {:induction false} RaisedJoinsSeven(k: Kernel)
    requires k == FirstRunsHigh().(tcb := BothWaitFor(1).tcb, ready := Lists(Ring([], 0), Ring([0, 1], 2)))
    ensures Tasks.PlaceOnEvent(k, 7, MAX_DELAY) == BothWaitFor(1)
  {
    PlaceForever(k, Ring([], 0), Ring([0, 1], 2), 7);
    OneUnlinked();
    FirstInLine(k.tcb);
    assert k.events[7 := [1]] == BothWaitFor(1).events;
  }

  lemma OneUnlinked()
    ensures Unlink(Ring([], 0), 1) == Ring([], 0) && Unlink(Ring([0, 1], 2), 1) == Ring([0], 1)
  {
    assert Without([0, 1], 1) == [0];
  }

  lemma FirstInLine(tcb: map<TaskId, Tcb>)
    requires 1 in tcb
    ensures InsertByEvent(tcb, [], 1) == [1]
  {
  }

  lemma SevenUpdated(x: Mutexes.Mutex, y: Mutexes.Mutex, eight: Mutexes.Mutex)
    ensures map[7 := x, 8 := eight][7 := y] == map[7 := y, 8 := eight]
  {
  }

  lemma {:induction false} FirstJoinsSeven(k: Kernel)
    requires k == FirstRunsHigh()
    ensures Tasks.PlaceOnEvent(Tasks.Inherit(k, 0), 7, MAX_DELAY) == BothWaitFor(1)
  {
    FirstRaises(k);
    assert k.tcb[0 := RAISED_TWICE] == BothWaitFor(1).tcb;
    RaisedJoinsSeven(Tasks.Inherit(k, 0));
  }

  lemma {:induction false} FirstBlocksOnSeven(run: seq<Mutexes.Step>)
    requires Leads(run, With(FirstRunsHigh(), Held(0, map[]), Held(0, map[2 := 0])))
    ensures Leads(run + [Mutexes.Block(7, MAX_DELAY)] + [Mutexes.KernelStep(SwitchContext)],
                  With(BothWaitFor(0), Held(0, map[1 := 1]), Held(0, map[2 := 0])))
  {
    var s, r := With(FirstRunsHigh(), Held(0, map[]), Held(0, map[2 := 0])),
                With(BothWaitFor(1), Held(0, map[1 := 1]), Held(0, map[2 := 0]));
    FirstAsksForSeven(s, r);
    FurtherBlock(run, s, 7, r);
    SwitchHigh(BothWaitFor(1), Ring([], 0), Ring([0], 1));
    FurtherCall(run + [Mutexes.Block(7, MAX_DELAY)], r, SwitchContext, BothWaitFor(0));
  }

  lemma {:induction false} FirstAsksForSeven(s: Mutexes.System, r: Mutexes.System)
    requires s == With(FirstRunsHigh(), Held(0, map[]), Held(0, map[2 := 0]))
    requires r == With(BothWaitFor(1), Held(0, map[1 := 1]), Held(0, map[2 := 0]))
    ensures Mutexes.Enabled(s, Mutexes.Block(7, MAX_DELAY)) && Mutexes.BlockOn(s, 7, MAX_DELAY) == r
  {
    FirstJoinsSeven(s.k);
    assert Mutexes.Asked(s.mutexes[7], 1, 1) == r.mutexes[7];
    SevenUpdated(s.mutexes[7], r.mutexes[7], r.mutexes[8]);
  }

  // ---------- the idle task gives mutex 7 back, and then 8 ----------

  function OneGiven(): Kernel {
    Small(map[0 := RAISED, 1 := Plain(1), 2 := Plain(0)], Ring([], 0), Ring([1, 0], 2), [2], [],
          map[8 := [2], 7 := []], 0, 0, false, 1, 3)
  }

  lemma {:induction false} FirstIsServed(k: Kernel)
    requires k == BothWaitFor(0)
    ensures Mutexes.WakeWaiter(Tasks.Disinherit(k, 0), 7) == OneGiven()
  {
    OneLessHeld(k);
    FirstWakes(k.(tcb := OneGiven().tcb));
  }

  lemma OneLessHeld(k: Kernel)
    requires k == BothWaitFor(0)
    ensures Tasks.Disinherit(k, 0) == k.(tcb := OneGiven().tcb)
  {
    assert k.tcb[0 := RAISED] == OneGiven().tcb;
  }

  lemma {:induction false} FirstWakes(d: Kernel)
    requires d == BothWaitFor(0).(tcb := OneGiven().tcb)
    ensures Mutexes.WakeWaiter(d, 7) == OneGiven()
  {
    var u := Unevent(d, 1);
    assert Without([2], 1) == [2] && Without([1], 1) == [] && Without([2, 1], 1) == [2];
    assert u == d.(events := map[8 := [2], 7 := []]);
    UnlistLists(Ring([], 0), Ring([0], 1), 1);
    assert Unlink(Ring([], 0), 1) == Ring([], 0) && Unlink(Ring([0], 1), 1) == Ring([0], 1);
    MakeReadyHigh(Unlist(u, 1), Ring([], 0), Ring([0], 1), 1);
    assert Ring([0], 1).InsertEnd(1) == Ring([1, 0], 2);
  }

  lemma {:induction false} SevenIsGiven(run: seq<Mutexes.Step>)
    requires Leads(run, With(BothWaitFor(0), Held(0, map[1 := 1]), Held(0, map[2 := 0])))
    ensures Leads(run + [Mutexes.GiveBack(7)], With(OneGiven(), Free(map[1 := 1]), Held(0, map[2 := 0])))
  {
    var s, r := With(BothWaitFor(0), Held(0, map[1 := 1]), Held(0, map[2 := 0])),
                With(OneGiven(), Free(map[1 := 1]), Held(0, map[2 := 0]));
    GivingSeven(s, r);
    FurtherGive(run, s, 7, r);
  }

  lemma {:induction false} GivingSeven(s: Mutexes.System, r: Mutexes.System)
    requires s == With(BothWaitFor(0), Held(0, map[1 := 1]), Held(0, map[2 := 0]))
    requires r == With(OneGiven(), Free(map[1 := 1]), Held(0, map[2 := 0]))
    ensures Mutexes.MayDisinherit(s.k, s.mutexes[7].holder) && Mutexes.Give(s, 7) == r
    ensures Mutexes.Enabled(s, Mutexes.GiveBack(7))
  {
    FirstIsServed(s.k);
    assert Mutexes.Given(s.mutexes[7]) == r.mutexes[7];
    SevenUpdated(s.mutexes[7], r.mutexes[7], r.mutexes[8]);
    GiveInParts(s);
  }

  lemma GiveInParts(s: Mutexes.System)
    requires 7 in s.mutexes && s.mutexes[7].holder == Mutexes.Task(0) && s.mutexes[7].count == 0
    requires 0 in s.k.tcb && s.k.tcb[0].mutexesHeld > 0
    ensures Mutexes.Give(s, 7) == Mutexes.System(Mutexes.WakeWaiter(Tasks.Disinherit(s.k, 0), 7),
                                                 s.mutexes[7 := Mutexes.Given(s.mutexes[7])])
  {
  }

  lemma {:induction false} RunToOneGiven() returns (run: seq<Mutexes.Step>)
    ensures Leads(run, With(OneGiven(), Free(map[1 := 1]), Held(0, map[2 := 0])))
  {
    TwoTaken();
    run := [Mutexes.NewMutex(7, false)] + [Mutexes.NewMutex(8, false)] + [Mutexes.Take(7)] + [Mutexes.Take(8)];
    SecondRunsLow(run);
    run := run + [Mutexes.KernelStep(Create(2, 0))] + [Mutexes.KernelStep(SwitchContext)]
           + [Mutexes.KernelStep(SwitchContext)];
    SecondBlocksOnEight(run);
    run := run + [Mutexes.Block(8, MAX_DELAY)];
    FirstIsRun(run);
    run := run + [Mutexes.KernelStep(Create(1, 1))] + [Mutexes.KernelStep(SwitchContext)];
    FirstBlocksOnSeven(run);
    run := run + [Mutexes.Block(7, MAX_DELAY)] + [Mutexes.KernelStep(SwitchContext)];
    SevenIsGiven(run);
    run := run + [Mutexes.GiveBack(7)];
  }

  /** A run from the start of the scheduler after which the idle task, back at priority 0, gives mutex 8 to a task of
      priority 0 and goes on running with task 1 of priority 1 ready, no yield asked for and none pending. */
  lemma {:induction false} ForgottenYield()
    ensures var k := OneGiven();
            && (exists run :: Leads(run, With(k, Free(map[1 := 1]), Held(0, map[2 := 0]))))
            && Inv(k) && Allowed(k, Disinherit) && Highest(k, k.current) && Forgets(k, 8)
            && var r := Mutexes.WakeWaiter(Tasks.Disinherit(k, k.current), 8);
               !GiveAsks(k, 8) && !Highest(r, r.current) && !r.yieldPending && r.current == 0
  {
    var run := RunToOneGiven();
    LedToIsSound(run, With(OneGiven(), Free(map[1 := 1]), Held(0, map[2 := 0])));
    ForgettingState(OneGiven());
    GiveKeepsRightfulExactlyIf(OneGiven(), 8);
    ForgottenCurrent(OneGiven());
  }

  lemma ForgottenCurrent(k: Kernel)
    requires k == OneGiven()
    ensures Allowed(k, Disinherit) && Mutexes.WakeWaiter(Tasks.Disinherit(k, k.current), 8).current == 0
  {
    DisinheritSides(k);
  }

  lemma {:induction false} ForgettingState(k: Kernel)
    requires k == OneGiven() && Inv(k)
    ensures Allowed(k, Disinherit) && Highest(k, k.current) && Forgets(k, 8)
  {
    assert 0 in k.ready[1].items && 1 in k.ready[1].items;
    assert k.IsReady(0) && k.IsReady(1);
    ReadyMeansReady(k);
    assert 1 in CensusOf(k).Ready() && 1 != k.current && k.PriorityOf(1) > k.tcb[0].basePriority;
  }
}
