/** The file-scope state of tasks.c as an object whose methods update it in place, each tied to the
    function of `Tasks` that says what it does to the state as a whole. */
module Schedulers {
  import opened Ticks
  import opened ListModel
  import opened Tasks
  import opened TaskInvariants
  import TaskRuns
  import Deadlines

  class Scheduler {
    var tcb: map<TaskId, Tcb>
    var ready: ReadyLists
    var delayed: seq<TaskId>
    var overflow: seq<TaskId>
    var suspended: seq<TaskId>
    var terminated: seq<TaskId>
    var pending: seq<TaskId>
    var events: map<EventId, seq<TaskId>>
    var current: TaskId
    var tick: Tick
    var overflows: nat
    var nextUnblock: Tick
    var suspensions: nat
    var pendedTicks: Tick
    var yieldPending: bool
    var topReady: Priority
    var taskCount: nat
    var deletedCount: nat

    ghost function Model(): Kernel
      reads this
    {
      Kernel(tcb, ready, delayed, overflow, suspended, terminated, pending, events, current, tick, overflows,
             nextUnblock, suspensions, pendedTicks, yieldPending, topReady, taskCount, deletedCount)
    }

    /** vTaskStartScheduler, with the idle task as the only one created. */
    constructor (idle: TaskId)
      ensures Model() == Started(idle) && Inv(Model())
    {
      tcb := map[idle := Tcb(0, 0, 0, 0, PriorityValue(0))];
      ready := NoneReady();
      delayed, overflow, suspended, terminated, pending := [], [], [], [], [];
      events, current := map[], idle;
      tick, overflows, nextUnblock := 0, 0, MAX_DELAY;
      suspensions, pendedTicks, yieldPending := 0, 0, false;
      topReady, taskCount, deletedCount := 0, 1, 0;
      new;
      AddToReadyList(idle);
      TaskRuns.StartedKeeps(idle);
    }

    // ---------- list moves ----------

    method UnlinkGeneric(t: TaskId)
      modifies this
      ensures Model() == Unlist(old(Model()), t)
    {
      ghost var k := Unlist(Model(), t);
      UnlinkReady(t);
      delayed, overflow := Without(delayed, t), Without(overflow, t);
      suspended, terminated := Without(suspended, t), Without(terminated, t);
      assert Model() == k;
    }

    method UnlinkReady(t: TaskId)
      modifies `ready
      ensures ready == UnlistReady(old(ready), t)
    {
      ready := UnlistReady(ready, t);
    }

    method UnlinkEvent(t: TaskId)
      modifies this
      ensures Model() == Unevent(old(Model()), t)
    {
      pending := Without(pending, t);
      events := map e <- events.Keys :: Without(events[e], t);
    }

    method AddToReadyList(t: TaskId)
      modifies this
      ensures Model() == MakeReady(old(Model()), t)
    {
      var p: Priority := if t in tcb then tcb[t].priority else 0;
      if p > topReady {
        topReady := p;
      }
      ready := ready[p := ready[p].InsertEnd(t)];
    }

    method AddCurrentToDelayedList(wake: Tick)
      requires current in tcb
      modifies this
      ensures Model() == Sleep(old(Model()), old(current), wake)
    {
      ghost var k := Model();
      tcb := tcb[current := tcb[current].(wakeValue := wake)];
      assert Model() == k.(tcb := tcb);
      if wake < tick {
        overflow := InsertByWake(tcb, overflow, current);
      } else {
        delayed := InsertByWake(tcb, delayed, current);
        if wake < nextUnblock {
          nextUnblock := wake;
        }
      }
    }

    method ResetNextTaskUnblockTime()
      modifies this
      ensures Model() == ResetNextUnblock(old(Model()))
    {
      if delayed == [] {
        nextUnblock := MAX_DELAY;
      } else {
        nextUnblock := WakeOf(tcb, delayed[0]);
      }
    }

    // ---------- task control ----------

    method Create(t: TaskId, p: Priority) returns (yieldRequired: bool)
      requires t !in tcb
      modifies this
      ensures Model() == Tasks.Create(old(Model()), t, p)
      ensures yieldRequired <==> p > old(Model().PriorityOf(current))
    {
      yieldRequired := Priority(current) < p;
      tcb := tcb[t := Tcb(p, p, 0, 0, PriorityValue(p))];
      taskCount := taskCount + 1;
      AddToReadyList(t);
    }

    method Delete(t: TaskId) returns (yieldRequired: bool)
      requires t in tcb && t !in terminated
      modifies this
      ensures yieldRequired <==> t == current
      ensures var k := Tasks.Delete(old(Model()), t);
              Model() == if t == current then k else ResetNextUnblock(k)
    {
      UnlinkEvent(t);
      UnlinkGeneric(t);
      terminated := terminated + [t];
      deletedCount := deletedCount + 1;
      yieldRequired := t == current;
      if t != current {
        ResetNextTaskUnblockTime();
      }
    }

    method Suspend(t: TaskId) returns (yieldRequired: bool)
      requires t in tcb && t !in terminated
      modifies this
      ensures yieldRequired <==> t == current
      ensures var k := Tasks.Suspend(old(Model()), t);
              Model() == if t == current then k else ResetNextUnblock(k)
    {
      UnlinkEvent(t);
      UnlinkGeneric(t);
      suspended := suspended + [t];
      yieldRequired := t == current;
      if t != current {
        ResetNextTaskUnblockTime();
      }
    }

    /** prvTaskIsTaskSuspended. */
    method TaskIsSuspended(t: TaskId) returns (r: bool)
      ensures r == IsSuspended(Model(), t)
    {
      r := t in suspended && t !in pending && !exists e <- events.Keys :: t in events[e];
    }

    method Resume(t: TaskId) returns (yieldRequired: bool)
      modifies this
      ensures Model() == Tasks.Resume(old(Model()), t)
      ensures yieldRequired <==>
                old(t != current && IsSuspended(Model(), t) && Model().PriorityOf(t) >= Model().PriorityOf(current))
    {
      yieldRequired := false;
      if t != current {
        var s := TaskIsSuspended(t);
        if s {
          yieldRequired := Priority(t) >= Priority(current);
          UnlinkGeneric(t);
          AddToReadyList(t);
        }
      }
    }

    method ResumeFromISR(t: TaskId) returns (yieldRequired: bool)
      modifies this
      ensures Model() == Tasks.ResumeFromISR(old(Model()), t)
      ensures yieldRequired <==> old(IsSuspended(Model(), t)) && suspensions == 0
                                 && Model().PriorityOf(t) >= Model().PriorityOf(current)
    {
      yieldRequired := false;
      var s := TaskIsSuspended(t);
      if s {
        if suspensions == 0 {
          yieldRequired := Priority(t) >= Priority(current);
          UnlinkGeneric(t);
          AddToReadyList(t);
        } else {
          pending := pending + [t];
        }
      }
    }

    function Priority(t: TaskId): (p: Priority)
      reads this
      ensures p == Model().PriorityOf(t)
    {
      if t in tcb then tcb[t].priority else 0
    }

    method PrioritySet(t: TaskId, p: Priority) returns (yieldRequired: bool)
      requires t in tcb
      modifies this
      ensures Model() == Tasks.PrioritySet(old(Model()), t, p)
      ensures yieldRequired <==>
                var c := old(tcb)[t];
                || (p > c.basePriority && t != current && p >= old(Model().PriorityOf(current)))
                || (p < c.basePriority && t == current)
    {
      yieldRequired := false;
      var c := tcb[t];
      if c.basePriority != p {
        if p > c.basePriority {
          if t != current && p >= Priority(current) {
            yieldRequired := true;
          }
        } else if t == current {
          yieldRequired := true;
        }
        var priority := if c.basePriority == c.priority then p else c.priority;
        var value := if c.eventValue < VALUE_IN_USE then PriorityValue(p) else c.eventValue;
        ReplaceBlock(t, c.(priority := priority, basePriority := p, eventValue := value));
      }
    }

    /** Writes the control block of `t` and moves `t` to the ready list of its new priority. */
    method ReplaceBlock(t: TaskId, c: Tcb)
      requires t in tcb
      modifies this
      ensures Model() == Reprioritised(old(Model()), t, c)
    {
      var wasReady := t in ready[tcb[t].priority].items;
      tcb := tcb[t := c];
      if wasReady {
        UnlinkGeneric(t);
        AddToReadyList(t);
      }
    }

    // ---------- mutex priorities ----------

    method IncrementMutexHeldCount() returns (holder: TaskId)
      requires current in tcb
      modifies this
      ensures Model() == IncrementHeld(old(Model())) && holder == current
    {
      tcb := tcb[current := tcb[current].(mutexesHeld := tcb[current].mutexesHeld + 1)];
      holder := current;
    }

    method PriorityInherit(holder: TaskId)
      requires holder in tcb
      modifies this
      ensures Model() == Inherit(old(Model()), holder)
    {
      if tcb[holder].priority < Priority(current) {
        var p := Priority(current);
        var value := if tcb[holder].eventValue < VALUE_IN_USE then PriorityValue(p) else tcb[holder].eventValue;
        ReplaceBlock(holder, tcb[holder].(priority := p, eventValue := value));
      }
    }

    method PriorityDisinherit(holder: TaskId) returns (switchRequired: bool)
      requires holder in tcb && tcb[holder].mutexesHeld > 0
      modifies this
      ensures Model() == Disinherit(old(Model()), holder)
      ensures switchRequired <==> old(tcb[holder].priority != tcb[holder].basePriority && tcb[holder].mutexesHeld == 1)
    {
      switchRequired := false;
      tcb := tcb[holder := tcb[holder].(mutexesHeld := tcb[holder].mutexesHeld - 1)];
      if tcb[holder].priority != tcb[holder].basePriority {
        if tcb[holder].mutexesHeld == 0 {
          UnlinkGeneric(holder);
          tcb := tcb[holder := WithBase(tcb[holder])];
          AddToReadyList(holder);
          switchRequired := true;
        }
      }
    }

    // ---------- blocking ----------

    method Delay(ticks: Tick)
      requires current in tcb && suspensions == 0 && ticks > 0
      modifies this
      ensures var k := SuspendAll(old(Model()));
              Model() == ResumeAll(Block(k, Plus(k.tick, ticks)))
    {
      SuspendAllTasks();
      var wake := Plus(tick, ticks);
      UnlinkGeneric(current);
      AddCurrentToDelayedList(wake);
      var yielded := ResumeAllTasks();
    }

    method DelayUntil(previous: Tick, increment: Tick) returns (next: Tick)
      requires current in tcb && suspensions == 0 && increment > 0
      modifies this
      ensures next == Plus(previous, increment)
      ensures var k := SuspendAll(old(Model()));
              Model() == ResumeAll(if Deadlines.MustDelay(previous, increment, k.tick) then Block(k, next) else k)
    {
      SuspendAllTasks();
      next := Plus(previous, increment);
      var delay := false;
      if tick < previous {
        if next < previous && next > tick {
          delay := true;
        }
      } else {
        if next < previous || next > tick {
          delay := true;
        }
      }
      if delay {
        UnlinkGeneric(current);
        AddCurrentToDelayedList(next);
      }
      var yielded := ResumeAllTasks();
    }

    method BlockCurrent(forever: bool, ticks: Tick)
      requires current in tcb
      modifies this
      ensures Model() == BlockOnEvent(old(Model()), forever, ticks)
    {
      UnlinkGeneric(current);
      if forever {
        suspended := suspended + [current];
      } else {
        var wake := Plus(tick, ticks);
        AddCurrentToDelayedList(wake);
      }
    }

    method PlaceOnEventList(e: EventId, ticks: Tick)
      requires current in tcb
      modifies this
      ensures Model() == PlaceOnEvent(old(Model()), e, ticks)
    {
      var l := if e in events then events[e] else [];
      events := events[e := InsertByEvent(tcb, l, current)];
      BlockCurrent(ticks == MAX_DELAY, ticks);
    }

    method PlaceOnUnorderedEventList(e: EventId, value: Tick, ticks: Tick)
      requires current in tcb
      modifies this
      ensures Model() == PlaceOnUnordered(old(Model()), e, value, ticks)
    {
      tcb := tcb[current := tcb[current].(eventValue := MarkInUse(value))];
      var l := if e in events then events[e] else [];
      events := events[e := l + [current]];
      BlockCurrent(ticks == MAX_DELAY, ticks);
    }

    method PlaceOnEventListRestricted(e: EventId, ticks: Tick, forever: bool)
      requires current in tcb
      modifies this
      ensures Model() == PlaceRestricted(old(Model()), e, ticks, forever)
    {
      var l := if e in events then events[e] else [];
      events := events[e := l + [current]];
      BlockCurrent(forever, ticks);
    }

    method ResetEventItemValue() returns (value: Tick)
      requires current in tcb
      modifies this
      ensures value == old(tcb[current].eventValue) && Model() == ResetEventValue(old(Model()))
    {
      value := tcb[current].eventValue;
      tcb := tcb[current := tcb[current].(eventValue := PriorityValue(Priority(current)))];
    }

    // ---------- waking ----------

    method RemoveFromEventList(e: EventId) returns (higherWoken: bool)
      requires e in events && events[e] != []
      modifies this
      ensures Model() == RemoveFromEvent(old(Model()), e)
      ensures higherWoken <==> old(Model().PriorityOf(events[e][0]) > Model().PriorityOf(current))
    {
      var t := events[e][0];
      higherWoken := Priority(t) > Priority(current);
      UnlinkEvent(t);
      if suspensions == 0 {
        UnlinkGeneric(t);
        AddToReadyList(t);
      } else {
        pending := pending + [t];
      }
      if higherWoken {
        yieldPending := true;
      }
    }

    method RemoveFromUnorderedEventList(t: TaskId, value: Tick) returns (higherWoken: bool)
      requires t in tcb
      modifies this
      ensures Model() == RemoveFromUnordered(old(Model()), t, value)
      ensures higherWoken <==> old(Model().PriorityOf(t) > Model().PriorityOf(current))
    {
      higherWoken := Priority(t) > Priority(current);
      tcb := tcb[t := tcb[t].(eventValue := MarkInUse(value))];
      UnlinkEvent(t);
      UnlinkGeneric(t);
      AddToReadyList(t);
      if higherWoken {
        yieldPending := true;
      }
    }

    // ---------- ticks ----------

    method SwitchLists()
      modifies this
      ensures Model() == SwitchDelayedLists(old(Model()))
    {
      delayed, overflow := overflow, delayed;
      overflows := overflows + 1;
      ResetNextTaskUnblockTime();
    }

    /** The unblocking loop of xTaskIncrementTick. */
    method UnblockDueTasks() returns (switchRequired: bool)
      modifies this
      ensures (Model(), switchRequired) == WakeDue(old(Model()), false)
    {
      switchRequired := false;
      while true
        invariant WakeDue(Model(), switchRequired) == WakeDue(old(Model()), false)
        decreases |delayed|
      {
        if delayed == [] {
          nextUnblock := MAX_DELAY;
          break;
        }
        var t := delayed[0];
        var value := WakeOf(tcb, t);
        if tick < value {
          nextUnblock := value;
          break;
        }
        if Priority(t) >= Priority(current) {
          switchRequired := true;
        }
        UnlinkEvent(t);
        UnlinkGeneric(t);
        AddToReadyList(t);
      }
    }

    method IncrementTick() returns (switchRequired: bool)
      modifies this
      ensures (Model(), switchRequired) == Tasks.IncrementTick(old(Model()))
    {
      switchRequired := false;
      if suspensions == 0 {
        tick := Plus(tick, 1);
        if tick == 0 {
          SwitchLists();
        }
        if tick >= nextUnblock {
          switchRequired := UnblockDueTasks();
        }
        if |ready[Priority(current)].items| > 1 {
          switchRequired := true;
        }
      } else {
        pendedTicks := Plus(pendedTicks, 1);
      }
      if yieldPending {
        switchRequired := true;
      }
    }

    // ---------- suspending the scheduler ----------

    method SuspendAllTasks()
      modifies this
      ensures Model() == SuspendAll(old(Model()))
    {
      suspensions := suspensions + 1;
    }

    method ReadyFirstPendingTask()
      requires pending != []
      modifies this
      ensures Model() == DrainedOnce(old(Model()))
    {
      var t := pending[0];
      var wanted := Priority(t) >= Priority(current);
      UnlinkEvent(t);
      UnlinkGeneric(t);
      AddToReadyList(t);
      if wanted {
        yieldPending := true;
      }
    }

    method ReadyPendingTasks()
      modifies this
      ensures Model() == DrainPending(old(Model()))
    {
      while pending != []
        invariant DrainPending(Model()) == DrainPending(old(Model()))
        decreases |pending|
      {
        ReadyFirstPendingTask();
      }
    }

    method ReplayPendedTick()
      requires suspensions == 0 && pendedTicks > 0
      modifies this
      ensures Model() == ReplayTick(old(Model())) && suspensions == 0
    {
      LiveTickKeeps(Model());
      var switch := IncrementTick();
      if switch {
        yieldPending := true;
      }
      pendedTicks := pendedTicks - 1;
    }

    method ReplayPendedTicks()
      requires suspensions == 0
      modifies this
      ensures Model() == ReplayTicks(old(Model())) && suspensions == 0
    {
      while pendedTicks > 0
        invariant suspensions == 0
        invariant ReplayTicks(Model()) == ReplayTicks(old(Model()))
        decreases pendedTicks
      {
        ReplayPendedTick();
      }
    }

    method ResumeAllTasks() returns (alreadyYielded: bool)
      requires suspensions > 0
      modifies this
      ensures Model() == ResumeAll(old(Model()))
      ensures alreadyYielded <==> old(suspensions == 1 && taskCount > 0) && yieldPending
    {
      alreadyYielded := false;
      suspensions := suspensions - 1;
      if suspensions == 0 && taskCount > 0 {
        TaskRuns.DrainFrame(Model());
        ReadyPendingTasks();
        ReplayPendedTicks();
        alreadyYielded := yieldPending;
      }
    }

    // ---------- selection ----------

    /** vTaskSwitchContext; some task at or below the top priority must be ready. */
    method SwitchContext()
      requires suspensions == 0 ==> ready[HighestReady(ready, topReady)].items != []
      modifies this
      ensures Model() == Tasks.SwitchContext(old(Model()))
    {
      if suspensions != 0 {
        yieldPending := true;
      } else {
        yieldPending := false;
        SelectHighestPriorityTask();
      }
    }

    /** taskSELECT_HIGHEST_PRIORITY_TASK. */
    method SelectHighestPriorityTask()
      requires ready[HighestReady(ready, topReady)].items != []
      modifies `topReady, `ready, `current
      ensures topReady == HighestReady(old(ready), old(topReady))
      ensures ready == old(ready)[topReady := old(ready)[topReady].Next()]
      ensures current == old(ready)[topReady].Next().Indexed()
    {
      FindHighest();
      RunNext();
    }

    /** Its search. */
    method FindHighest()
      requires ready[HighestReady(ready, topReady)].items != []
      modifies `topReady
      ensures topReady == HighestReady(ready, old(topReady)) && ready[topReady].items != []
    {
      while ready[topReady].items == []
        invariant HighestReady(ready, topReady) == HighestReady(ready, old(topReady))
        decreases topReady
      {
        assert topReady > 0;
        topReady := topReady - 1;
      }
    }

    /** The rest of it: the next owner in the list found. */
    method RunNext()
      requires ready[topReady].items != []
      modifies `ready, `current
      ensures ready == old(ready)[topReady := old(ready)[topReady].Next()]
      ensures current == old(ready)[topReady].Next().Indexed()
    {
      var l: ReadyList := ready[topReady].Next();
      ready := ready[topReady := l];
      current := l.Indexed();
    }

    // ---------- the idle task ----------

    method ReapFirst()
      requires terminated != [] && deletedCount > 0 && taskCount > 0
      modifies this
      ensures Model() == Reap(old(Model()))
    {
      var t := terminated[0];
      UnlinkGeneric(t);
      tcb := tcb - {t};
      taskCount := taskCount - 1;
      deletedCount := deletedCount - 1;
    }

    /** prvCheckTasksWaitingTermination, run by a task that has not been deleted: it ends, frees exactly
        the deleted tasks and leaves every other list alone. */
    method CheckTasksWaitingTermination()
      requires Inv(Model()) && suspensions == 0 && pendedTicks == 0 && current !in terminated
      modifies this
      ensures Inv(Model()) && terminated == [] && deletedCount == 0
      ensures forall t :: t in tcb <==> t in old(tcb) && t !in old(terminated)
      ensures delayed == old(delayed) && overflow == old(overflow) && suspended == old(suspended)
    {
      while deletedCount > 0
        invariant Inv(Model()) && suspensions == 0 && pendedTicks == 0 && current !in terminated
        invariant forall t :: t in tcb <==> t in old(tcb) && (t in old(terminated) ==> t in terminated)
        invariant forall t :: t in terminated ==> t in old(terminated)
        invariant delayed == old(delayed) && overflow == old(overflow) && suspended == old(suspended)
        decreases deletedCount
      {
        RoundOfTermination();
      }
    }

    method RoundOfTermination()
      requires Inv(Model()) && suspensions == 0 && pendedTicks == 0 && current !in terminated && deletedCount > 0
      modifies this
      ensures Inv(Model()) && suspensions == 0 && pendedTicks == 0 && current == old(current)
      ensures deletedCount == old(deletedCount) - 1
      ensures terminated == old(terminated)[1..] && old(terminated)[0] !in terminated
      ensures tcb == old(tcb) - {old(terminated)[0]}
      ensures delayed == old(delayed) && overflow == old(overflow) && suspended == old(suspended)
    {
      ghost var k := Model();
      TaskRuns.ResumeOfNothing(k);
      SuspendAllTasks();
      var isEmpty := terminated == [];
      var yielded := ResumeAllTasks();
      if !isEmpty {
        TaskRuns.ReapKeeps(k);
        TaskRuns.ReapIsQuiet(k);
        ReapFirst();
      }
    }
  }
}
