/** The state of tasks.c and what each of its critical sections does to it.

    A task's generic list item and event list item are represented by the task itself: a list is the
    sequence of the tasks whose item is linked in, as `Lists` proves of the linked structure.  The item
    values live in the task control block, where the C code keeps them. */
module Tasks {
  import opened Ticks
  import opened ListModel

  const PRIORITIES: nat := 5            // configMAX_PRIORITIES
  const VALUE_IN_USE: int := 0x8000_0000 // taskEVENT_LIST_ITEM_VALUE_IN_USE

  type TaskId = nat
  type EventId = nat
  type Priority = p: nat | p < PRIORITIES witness 0
  type ReadyList = l: Ring<TaskId> | l.Valid() witness Ring([], 0)
  type ReadyLists = s: seq<ReadyList> | |s| == PRIORITIES witness NoneReady()

  function NoneReady(): (s: seq<ReadyList>)
    ensures |s| == PRIORITIES
  {
    seq<ReadyList>(PRIORITIES, i => Ring([], 0))
  }

  /** The members of TCB_t the scheduler uses. */
  datatype Tcb = Tcb(
    priority: Priority,      // uxPriority
    basePriority: Priority,  // uxBasePriority
    mutexesHeld: nat,        // uxMutexesHeld
    wakeValue: Tick,         // value of xGenericListItem
    eventValue: Tick)        // value of xEventListItem

  datatype Kernel = Kernel(
    tcb: map<TaskId, Tcb>,             // the tasks created and not yet reaped
    ready: ReadyLists,                 // pxReadyTasksLists
    delayed: seq<TaskId>,              // pxDelayedTaskList
    overflow: seq<TaskId>,             // pxOverflowDelayedTaskList
    suspended: seq<TaskId>,            // xSuspendedTaskList
    terminated: seq<TaskId>,           // xTasksWaitingTermination
    pending: seq<TaskId>,              // xPendingReadyList, which links event items
    events: map<EventId, seq<TaskId>>, // the event lists of queues and event groups
    current: TaskId,                   // pxCurrentTCB
    tick: Tick,                        // xTickCount
    overflows: nat,                    // xNumOfOverflows
    nextUnblock: Tick,                 // xNextTaskUnblockTime
    suspensions: nat,                  // uxSchedulerSuspended
    pendedTicks: Tick,                 // uxPendedTicks
    yieldPending: bool,                // xYieldPending
    topReady: Priority,                // uxTopReadyPriority
    taskCount: nat,                    // uxCurrentNumberOfTasks
    deletedCount: nat)                 // uxTasksDeleted
  {
    /** The control block of a task (any value for a task that does not exist). */
    function Of(t: TaskId): Tcb {
      if t in tcb then tcb[t] else Tcb(0, 0, 0, 0, 0)
    }

    function PriorityOf(t: TaskId): Priority {
      Of(t).priority
    }

    function EventList(e: EventId): seq<TaskId> {
      if e in events then events[e] else []
    }

    /** Whether the event item of `t` is linked in anywhere. */
    predicate OnEvent(t: TaskId) {
      t in pending || exists e <- events.Keys :: t in events[e]
    }

    predicate IsReady(t: TaskId) {
      t in ready[PriorityOf(t)].items
    }

    predicate IsBlocked(t: TaskId) {
      t in delayed || t in overflow || t in suspended
    }
  }

  function WakeOf(tcb: map<TaskId, Tcb>, t: TaskId): Tick {
    if t in tcb then tcb[t].wakeValue else 0
  }

  function WakeValues(tcb: map<TaskId, Tcb>, s: seq<TaskId>): (r: seq<Tick>)
    ensures |r| == |s| && forall i :: 0 <= i < |s| ==> r[i] == WakeOf(tcb, s[i])
  {
    seq(|s|, i requires 0 <= i < |s| => WakeOf(tcb, s[i]))
  }

  function EventOf(tcb: map<TaskId, Tcb>, t: TaskId): Tick {
    if t in tcb then tcb[t].eventValue else 0
  }

  function EventValues(tcb: map<TaskId, Tcb>, s: seq<TaskId>): (r: seq<Tick>)
    ensures |r| == |s| && forall i :: 0 <= i < |s| ==> r[i] == EventOf(tcb, s[i])
  {
    seq(|s|, i requires 0 <= i < |s| => EventOf(tcb, s[i]))
  }

  /** The event item value that makes an event list a priority queue. */
  function PriorityValue(p: Priority): Tick {
    PRIORITIES - p
  }

  function MarkInUse(v: Tick): Tick {
    if v >= VALUE_IN_USE then v else v + VALUE_IN_USE
  }

  // ---------- list moves ----------

  function UnlistReady(r: seq<ReadyList>, t: TaskId): (r': seq<ReadyList>)
    ensures |r'| == |r|
  {
    seq(|r|, i requires 0 <= i < |r| => Unlink(r[i], t))
  }

  /** uxListRemove on the generic item of `t`. */
  function Unlist(k: Kernel, t: TaskId): Kernel {
    k.(ready := UnlistReady(k.ready, t),
       delayed := Without(k.delayed, t),
       overflow := Without(k.overflow, t),
       suspended := Without(k.suspended, t),
       terminated := Without(k.terminated, t))
  }

  /** uxListRemove on the event item of `t`, if it is linked in anywhere. */
  function Unevent(k: Kernel, t: TaskId): Kernel {
    k.(pending := Without(k.pending, t),
       events := map e <- k.events.Keys :: Without(k.events[e], t))
  }

  /** prvAddTaskToReadyList. */
  function MakeReady(k: Kernel, t: TaskId): Kernel {
    var p := k.PriorityOf(t);
    k.(ready := k.ready[p := k.ready[p].InsertEnd(t)],
       topReady := if p > k.topReady then p else k.topReady)
  }

  function InsertByWake(tcb: map<TaskId, Tcb>, s: seq<TaskId>, t: TaskId): seq<TaskId>
    requires t in tcb
  {
    Put(s, InsertPos(WakeValues(tcb, s), tcb[t].wakeValue), t)
  }

  function InsertByEvent(tcb: map<TaskId, Tcb>, s: seq<TaskId>, t: TaskId): seq<TaskId>
    requires t in tcb
  {
    Put(s, InsertPos(EventValues(tcb, s), tcb[t].eventValue), t)
  }

  /** prvAddCurrentTaskToDelayedList. */
  function Sleep(k: Kernel, t: TaskId, wake: Tick): Kernel
    requires t in k.tcb
  {
    var tcb := k.tcb[t := k.tcb[t].(wakeValue := wake)];
    if wake < k.tick then
      k.(tcb := tcb, overflow := InsertByWake(tcb, k.overflow, t))
    else
      k.(tcb := tcb, delayed := InsertByWake(tcb, k.delayed, t),
         nextUnblock := if wake < k.nextUnblock then wake else k.nextUnblock)
  }

  function SetEventValue(k: Kernel, t: TaskId, v: Tick): Kernel
    requires t in k.tcb
  {
    k.(tcb := k.tcb[t := k.tcb[t].(eventValue := v)])
  }

  /** Off whatever it waits for and into its ready list. */
  function ReadyUp(k: Kernel, t: TaskId): Kernel {
    MakeReady(Unlist(Unevent(k, t), t), t)
  }

  /** prvResetNextTaskUnblockTime. */
  function ResetNextUnblock(k: Kernel): Kernel {
    k.(nextUnblock := if k.delayed == [] then MAX_DELAY else WakeOf(k.tcb, k.delayed[0]))
  }

  // ---------- task control ----------

  /** The kernel as vTaskStartScheduler leaves it, with nothing but the idle task. */
  function Started(idle: TaskId): Kernel {
    MakeReady(
      Kernel(map[idle := Tcb(0, 0, 0, 0, PriorityValue(0))], NoneReady(),
             [], [], [], [], [], map[], idle, 0, 0, MAX_DELAY, 0, 0, false, 0, 1, 0),
      idle)
  }

  /** The critical section of xTaskGenericCreate. */
  function Create(k: Kernel, t: TaskId, p: Priority): Kernel {
    MakeReady(k.(tcb := k.tcb[t := Tcb(p, p, 0, 0, PriorityValue(p))], taskCount := k.taskCount + 1), t)
  }

  /** The first critical section of vTaskDelete; ResetNextUnblock is its second one. */
  function Delete(k: Kernel, t: TaskId): Kernel {
    var u := Unlist(Unevent(k, t), t);
    u.(terminated := u.terminated + [t], deletedCount := u.deletedCount + 1)
  }

  /** One round of prvCheckTasksWaitingTermination. */
  function Reap(k: Kernel): Kernel
    requires k.terminated != [] && k.deletedCount > 0 && k.taskCount > 0
  {
    var t := k.terminated[0];
    Unlist(k, t).(tcb := k.tcb - {t}, taskCount := k.taskCount - 1, deletedCount := k.deletedCount - 1)
  }

  /** The first critical section of vTaskSuspend; ResetNextUnblock is its second one. */
  function Suspend(k: Kernel, t: TaskId): Kernel {
    var u := Unlist(Unevent(k, t), t);
    u.(suspended := u.suspended + [t])
  }

  /** prvTaskIsTaskSuspended: on the suspended list, and not because it blocks without a timeout. */
  predicate IsSuspended(k: Kernel, t: TaskId) {
    t in k.suspended && !k.OnEvent(t)
  }

  function Resume(k: Kernel, t: TaskId): Kernel {
    if t != k.current && IsSuspended(k, t) then MakeReady(Unlist(k, t), t) else k
  }

  function ResumeFromISR(k: Kernel, t: TaskId): Kernel {
    if !IsSuspended(k, t) then k
    else if k.suspensions == 0 then MakeReady(Unlist(k, t), t)
    else k.(pending := k.pending + [t])
  }

  /** Gives `t` the control block `c`; a ready task moves to the back of the list of its priority. */
  function Reprioritised(k: Kernel, t: TaskId, c: Tcb): Kernel {
    var k' := k.(tcb := k.tcb[t := c]);
    if t in k.ready[k.PriorityOf(t)].items then MakeReady(Unlist(k', t), t) else k'
  }

  /** What vTaskPrioritySet makes of the control block; an inherited priority stays. */
  function WithPriority(c: Tcb, p: Priority): Tcb {
    c.(priority := if c.basePriority == c.priority then p else c.priority,
       basePriority := p,
       eventValue := if c.eventValue < VALUE_IN_USE then PriorityValue(p) else c.eventValue)
  }

  /** vTaskPrioritySet. */
  function PrioritySet(k: Kernel, t: TaskId, p: Priority): Kernel
    requires t in k.tcb
  {
    if k.tcb[t].basePriority == p then k else Reprioritised(k, t, WithPriority(k.tcb[t], p))
  }

  // ---------- mutex priorities ----------

  /** pvTaskIncrementMutexHeldCount. */
  function IncrementHeld(k: Kernel): Kernel
    requires k.current in k.tcb
  {
    var c := k.tcb[k.current];
    k.(tcb := k.tcb[k.current := c.(mutexesHeld := c.mutexesHeld + 1)])
  }

  /** What vTaskPriorityInherit makes of the holder's control block. */
  function WithInherited(c: Tcb, p: Priority): Tcb {
    c.(priority := p, eventValue := if c.eventValue < VALUE_IN_USE then PriorityValue(p) else c.eventValue)
  }

  /** vTaskPriorityInherit, for a mutex that has a holder. */
  function Inherit(k: Kernel, holder: TaskId): Kernel
    requires holder in k.tcb
  {
    var p := k.PriorityOf(k.current);
    if k.tcb[holder].priority >= p then k else Reprioritised(k, holder, WithInherited(k.tcb[holder], p))
  }

  /** What xTaskPriorityDisinherit makes of the control block of a holder that returns to its base priority. */
  function WithBase(c: Tcb): Tcb {
    c.(mutexesHeld := 0, priority := c.basePriority, eventValue := PriorityValue(c.basePriority))
  }

  /** xTaskPriorityDisinherit, for a mutex that has a holder. */
  function Disinherit(k: Kernel, holder: TaskId): Kernel
    requires holder in k.tcb && k.tcb[holder].mutexesHeld > 0
  {
    var c := k.tcb[holder];
    if c.priority != c.basePriority && c.mutexesHeld == 1 then
      MakeReady(Unlist(k, holder).(tcb := k.tcb[holder := WithBase(c)]), holder)
    else
      k.(tcb := k.tcb[holder := c.(mutexesHeld := c.mutexesHeld - 1)])
  }

  // ---------- blocking ----------

  /** What vTaskDelay and vTaskDelayUntil do once the wake time is known. */
  function Block(k: Kernel, wake: Tick): Kernel
    requires k.current in k.tcb
  {
    Sleep(Unlist(k, k.current), k.current, wake)
  }

  /** How the three "place on event list" functions end. */
  function BlockOnEvent(k: Kernel, forever: bool, ticks: Tick): Kernel
    requires k.current in k.tcb
  {
    var u := Unlist(k, k.current);
    if forever then u.(suspended := u.suspended + [k.current])
    else Sleep(u, k.current, Plus(k.tick, ticks))
  }

  /** vTaskPlaceOnEventList. */
  function PlaceOnEvent(k: Kernel, e: EventId, ticks: Tick): Kernel
    requires k.current in k.tcb
  {
    BlockOnEvent(k.(events := k.events[e := InsertByEvent(k.tcb, k.EventList(e), k.current)]),
                 ticks == MAX_DELAY, ticks)
  }

  /** vTaskPlaceOnUnorderedEventList. */
  function PlaceOnUnordered(k: Kernel, e: EventId, value: Tick, ticks: Tick): Kernel
    requires k.current in k.tcb
  {
    var v := SetEventValue(k, k.current, MarkInUse(value));
    BlockOnEvent(v.(events := k.events[e := k.EventList(e) + [k.current]]), ticks == MAX_DELAY, ticks)
  }

  /** vTaskPlaceOnEventListRestricted. */
  function PlaceRestricted(k: Kernel, e: EventId, ticks: Tick, forever: bool): Kernel
    requires k.current in k.tcb
  {
    BlockOnEvent(k.(events := k.events[e := k.EventList(e) + [k.current]]), forever, ticks)
  }

  /** uxTaskResetEventItemValue. */
  function ResetEventValue(k: Kernel): Kernel
    requires k.current in k.tcb
  {
    SetEventValue(k, k.current, PriorityValue(k.PriorityOf(k.current)))
  }

  // ---------- waking ----------

  function NoteYield(k: Kernel, yes: bool): Kernel {
    k.(yieldPending := k.yieldPending || yes)
  }

  /** xTaskRemoveFromEventList. */
  function RemoveFromEvent(k: Kernel, e: EventId): Kernel
    requires k.EventList(e) != []
  {
    var t := k.EventList(e)[0];
    var u := Unevent(k, t);
    var v := if k.suspensions == 0 then MakeReady(Unlist(u, t), t) else u.(pending := u.pending + [t]);
    NoteYield(v, k.PriorityOf(t) > k.PriorityOf(k.current))
  }

  /** xTaskRemoveFromUnorderedEventList. */
  function RemoveFromUnordered(k: Kernel, t: TaskId, value: Tick): Kernel
    requires t in k.tcb
  {
    NoteYield(ReadyUp(SetEventValue(k, t, MarkInUse(value)), t), k.PriorityOf(t) > k.PriorityOf(k.current))
  }

  // ---------- ticks ----------

  /** taskSWITCH_DELAYED_LISTS. */
  function SwitchDelayedLists(k: Kernel): Kernel {
    ResetNextUnblock(k.(delayed := k.overflow, overflow := k.delayed, overflows := k.overflows + 1))
  }

  /** The unblocking loop of xTaskIncrementTick; `switch` is xSwitchRequired. */
  function WakeDue(k: Kernel, switch: bool): (r: (Kernel, bool))
    decreases |k.delayed|
  {
    if k.delayed == [] then (k.(nextUnblock := MAX_DELAY), switch)
    else
      var t := k.delayed[0];
      var v := WakeOf(k.tcb, t);
      if k.tick < v then (k.(nextUnblock := v), switch)
      else WakeDue(ReadyUp(k, t), switch || k.PriorityOf(t) >= k.PriorityOf(k.current))
  }

  /** xTaskIncrementTick while the scheduler is not suspended. */
  function LiveTick(k: Kernel): (Kernel, bool) {
    var k1 := k.(tick := Plus(k.tick, 1));
    var k2 := if k1.tick == 0 then SwitchDelayedLists(k1) else k1;
    var (k3, switch) := if k2.tick >= k2.nextUnblock then WakeDue(k2, false) else (k2, false);
    (k3, switch || |k3.ready[k3.PriorityOf(k3.current)].items| > 1 || k3.yieldPending)
  }

  /** xTaskIncrementTick. */
  function IncrementTick(k: Kernel): (Kernel, bool) {
    if k.suspensions == 0 then LiveTick(k)
    else (k.(pendedTicks := Plus(k.pendedTicks, 1)), k.yieldPending)
  }

  // ---------- suspending the scheduler ----------

  /** vTaskSuspendAll. */
  function SuspendAll(k: Kernel): Kernel {
    k.(suspensions := k.suspensions + 1)
  }

  /** One round of the loop of xTaskResumeAll over xPendingReadyList. */
  function DrainedOnce(k: Kernel): Kernel
    requires k.pending != []
  {
    NoteYield(ReadyUp(k, k.pending[0]), k.PriorityOf(k.pending[0]) >= k.PriorityOf(k.current))
  }

  function DrainPending(k: Kernel): Kernel
    decreases |k.pending|
  {
    if k.pending == [] then k else DrainPending(DrainedOnce(k))
  }

  /** One round of the loop of xTaskResumeAll over the pended ticks. */
  function ReplayTick(k: Kernel): (r: Kernel)
    requires k.pendedTicks > 0
    ensures r == LiveTick(k).0.(pendedTicks := k.pendedTicks - 1, yieldPending := r.yieldPending)
    ensures r.tick == Plus(k.tick, 1) && r.suspensions == k.suspensions
  {
    LiveTickKeeps(k);
    NoteYield(LiveTick(k).0, LiveTick(k).1).(pendedTicks := k.pendedTicks - 1)
  }

  /** The loop of xTaskResumeAll over the pended ticks. */
  function ReplayTicks(k: Kernel): Kernel
    decreases k.pendedTicks
  {
    if k.pendedTicks == 0 then k else ReplayTicks(ReplayTick(k))
  }

  /** xTaskResumeAll. */
  function ResumeAll(k: Kernel): Kernel
    requires k.suspensions > 0
  {
    var k1 := k.(suspensions := k.suspensions - 1);
    if k1.suspensions == 0 && k1.taskCount > 0 then ReplayTicks(DrainPending(k1)) else k1
  }

  // ---------- selection ----------

  /** The highest priority at or below `p` with a ready task (0 if there is none). */
  function HighestReady(ready: ReadyLists, p: Priority): Priority {
    if ready[p].items != [] || p == 0 then p else HighestReady(ready, p - 1)
  }

  /** vTaskSwitchContext, when some task is ready. */
  function SwitchContext(k: Kernel): Kernel {
    if k.suspensions != 0 then k.(yieldPending := true)
    else
      var p := HighestReady(k.ready, k.topReady);
      if k.ready[p].items == [] then k
      else
        var l := k.ready[p].Next();
        k.(yieldPending := false, topReady := p, ready := k.ready[p := l], current := l.Indexed())
  }

  // ---------- frames ----------

  /** Waking due tasks moves list items and nothing else. */
  lemma {:induction false} WakeDueKeeps(k: Kernel, switch: bool)
    ensures var r := WakeDue(k, switch).0;
            r == k.(ready := r.ready, delayed := r.delayed, overflow := r.overflow, suspended := r.suspended,
                    terminated := r.terminated, pending := r.pending, events := r.events,
                    nextUnblock := r.nextUnblock, topReady := r.topReady)
    decreases |k.delayed|
  {
    if k.delayed != [] && WakeOf(k.tcb, k.delayed[0]) <= k.tick {
      WakeDueKeeps(ReadyUp(k, k.delayed[0]), switch || k.PriorityOf(k.delayed[0]) >= k.PriorityOf(k.current));
    }
  }

  lemma {:induction false} LiveTickKeeps(k: Kernel)
    ensures var r := LiveTick(k).0;
            r == k.(ready := r.ready, delayed := r.delayed, overflow := r.overflow, suspended := r.suspended,
                    terminated := r.terminated, pending := r.pending, events := r.events, tick := Plus(k.tick, 1),
                    overflows := r.overflows, nextUnblock := r.nextUnblock, topReady := r.topReady)
  {
    var k1 := k.(tick := Plus(k.tick, 1));
    WakeDueKeeps(if k1.tick == 0 then SwitchDelayedLists(k1) else k1, false);
  }
}
