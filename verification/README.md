# The FreeRTOS kernel core, modelled and verified

This project models the FreeRTOS V8.2.3 kernel under `lwipserver/freertos` and proves what its comments and
assertions promise: the intrusive lists, the tick and ready scheduler, queues with their interrupt lock
protocol, mutexes with priority inheritance, event groups, and the software timer daemon.

`dafny verify dfyconfig.toml` checks everything.

## How it is built

Each component has a specification, on values, and an object with the variables of the C code whose methods
are proved against it. The linked list of `list.c` is proved on the heap, and the state lists of `tasks.c` on top
of it (`TaskLists.dfy`); the other objects keep their lists as sequences. A critical section is one atomic step;
the theorems about runs quantify over every interleaving of such steps. Ideal time is an unbounded integer of
which the kernel sees the residue modulo 2^32; every claim about time is a claim about ideal time.

| file | content |
|---|---|
| `Ticks.dfy` | 32-bit tick arithmetic and ideal time |
| `ListModel.dfy`, `Lists.dfy` | lists as sequences with a roving index; the linked lists of `list.c` on the heap, proved against them |
| `Tasks.dfy`, `TaskInvariants.dfy`, `TaskRuns.dfy`, `TaskFrames.dfy` | the state of `tasks.c`, its critical sections, what they keep and leave alone, runs, deferred ticks |
| `TaskStates.dfy` | which lists each call moves which tasks between; task states |
| `TaskTime.dfy`, `TickCounts.dfy` | refinement of the two delayed lists to one wake queue in unbounded time; the two tick counters |
| `Delays.dfy` | what `vTaskDelay` promises, over whole runs |
| `TaskSelection.dfy`, `WakeOrders.dfy` | who runs; the order in which an event list wakes its waiters, over whole runs |
| `Preemption.dfy` | the running task is the highest ready one, or a switch has been asked for, over whole runs |
| `Deadlines.dfy` | `vTaskDelayUntil` and time-outs |
| `Scheduler.dfy` | the state of `tasks.c` updated in place, loops included |
| `TaskLists.dfy` | the ready, delayed, suspended and termination lists as linked lists of task items, the tick and the selection on them |
| `QueueProtocol.dfy`, `QueueBlocking.dfy`, `Queues.dfy` | check-then-block against interrupts; who blocks, who is woken and in which order; the byte ring as a deque, and the queue object with both |
| `Mutexes.dfy`, `MutexLedgers.dfy`, `MutexQueues.dfy` | holder accounting and priority inheritance over the whole kernel; takes and gives against a ledger; the mutex object |
| `Scenes.dfy`, `MutexYields.dfy` | concrete runs, from the start of the scheduler, that end where a property fails; the yield on giving a mutex back |
| `EventGroups.dfy`, `EventWaits.dfy`, `Barrier.dfy` | event groups, the list walk that removes as it goes; what they promise bit by bit; the rendezvous barrier |
| `Timers.dfy`, `TimerRuns.dfy`, `OneShots.dfy`, `TimerDaemons.dfy` | the timer daemon, the fate of one auto-reload or one-shot timer in any run, the daemon object |

A word of event bits is the set of the positions of its one bits, so that `|`, `&` and `& ~` are union,
intersection and difference. Pointers into a queue's storage are offsets from its head. Fields marked
"history" record the past for the theorems and influence nothing.

The configuration is the one of the repository where it has one: generic task selection, 32-bit ticks,
five priorities, preemption with time slicing, no queue sets. The timers are configured off there
(`lwipserver/freertos/include/FreeRTOS.h:218-220`); they are modelled as if on. `configASSERT` expands to
nothing (`lwipserver/freertos/include/FreeRTOS.h:258-260`); an assertion is a precondition here, or is proved.

## What turned out to hold only under a condition

Each of these is stated as an equivalence; the names behind a semicolon are concrete cases on the other side.

- The order of the delayed lists survives a timed block exactly if the block time is not 0
  (`TaskRuns.BlockKeepsOrderExactlyIf`). Every caller meets that: the delay functions and the blocking calls test
  for it, a retry asks for what is left of its wait (`Deadlines.DeadlineIsConserved`), and the timer daemon,
  which computes its block time from two lists, never arrives at 0 (`TimerRuns.DaemonBlocksForSomeTime`).
- `vTaskDelayUntil` decides rightly exactly if it is called less than a revolution late or the lateness modulo
  2^32 reaches the increment (`Deadlines.DelayUntilIsRightExactlyIf`; `Deadlines.LateCallBlocks`).
- A time-out can go unseen when the count has wrapped twice since the last check
  (`Deadlines.TimeOutIsRightExactlyIf`; `Deadlines.MissedAfterTwoWraps`).
- A task that takes a mutex does not inherit the rank of tasks that are already waiting for it. A holder outranks
  its waiters throughout a run exactly if no mutex is acquired past a waiter of higher rank
  (`Mutexes.OutrankedThroughoutExactlyIf`; `Scenes.LeftOverWaiterIsOutranked`). Towards tasks that block under it
  it always does (`Mutexes.HolderOutranksThoseItBlocks`), unless it is lowered
  (`Mutexes.PrioritySetKeepsRepaidExactlyIf`; `Scenes.LoweredHolderIsOutranked`).
- A task of higher priority than the running one never waits without a context switch being asked for
  (`Preemption.NobodyIsPassedOver`), with one exception: when a task gives its last mutex back, returns to its base
  priority and wakes a waiter that is no higher, the code looks at that waiter alone and forgets the other ready tasks
  (`MutexYields.GiveKeepsRightfulExactlyIf`; `MutexYields.ForgottenYield`).
- An event list wakes its most urgent waiter (`WakeOrders.WakesMostUrgent`), but a change of priority does not
  re-sort it (`WakeOrders.PriorityChangeDoesNotResort`): the next task woken stays the most urgent one exactly if
  the first waiter stays before the second and no other comes before the first
  (`WakeOrders.PriorityChangeKeepsHeadExactlyIf`; `Scenes.RaisedWaiterIsPassedOver`). And `vTaskPrioritySet` on a
  task that runs at an inherited priority gives its event item the value of a priority it does not run at
  (`WakeOrders.PrioritySetKeepsItemExactlyIf`; `Scenes.InheritedItemGoesStale`).
- Resetting a queue in use wakes one sender however many slots it frees (`QueueProtocol.ResetKeepsExactlyIf`;
  `QueueProtocol.ResetCanStrandASender`), and overwriting a full queue of zero-sized items lets its count exceed
  its length (`QueueProtocol.SendStaysInBoundsExactlyIf`; `QueueProtocol.OverwritesAreCounted`).
- A timer command is classified rightly exactly if it is less than one revolution old or its age modulo 2^32
  reaches the period (`Timers.FileIsRightExactlyIf`; `Timers.FiledOneRevolutionLate`). Over runs, an auto-reload
  timer stays on schedule exactly if each of its start commands is received in that good time
  (`TimerRuns.AutoReloadIsExactExactlyIf`). That the daemon samples the time within every revolution is not
  enough, because commands of other timers can hold the start command up (`TimerRuns.SampledInTimeYetLate`).

## Model

| member | source | states |
|---|---|---|
| `Lists.List.constructor` | lwipserver/freertos/list.c:79-101 | a new list is an empty circle with the index on the end marker |
| `Lists.List.InsertEnd` | lwipserver/freertos/list.c:116-142 | the item is linked in just before the indexed item; circle, containers and count stay right, no value or owner changes |
| `Lists.List.Insert` | lwipserver/freertos/list.c:145-209 | terminates for every value including portMAX_DELAY and links the item in behind every smaller or equal value |
| `Lists.List.Search` | lwipserver/freertos/list.c:164-199 | the search ends at the stable insertion point, the portMAX_DELAY shortcut included |
| `Lists.List.Remove` | lwipserver/freertos/list.c:212-238 | unlinks exactly this item through its container, steps the index back if it stood on the item, returns the new length |
| `Lists.List.OwnerOfNextEntry` | lwipserver/freertos/include/list.h:318-329 | steps the index to the next item, skipping the end marker, and returns its owner |
| `Lists.List.HeadEntry` | lwipserver/freertos/include/list.h:258-348 | owner and value of the first item |
| `Lists.List.Contains` | lwipserver/freertos/include/list.h:359-359 | the container test says yes to every linked item and no to every item that is in no list |
| `ListModel.NextRotates` | lwipserver/freertos/include/list.h:318-329 | one next-entry step returns the head of the upcoming order and moves it to the back |
| `ListModel.TakeNextIsPrefix` | lwipserver/freertos/include/list.h:318-329 | k steps return the first k of the upcoming order and rotate it by k |
| `ListModel.FullRound` | lwipserver/freertos/include/list.h:318-329 | as many steps as there are items return each item exactly once and restore the order |
| `ListModel.InsertEndOrder` | lwipserver/freertos/list.c:116-142 | an appended item comes behind every item except the one last returned |
| `ListModel.UnlinkOrder` | lwipserver/freertos/list.c:212-238 | removing any item, the indexed one included, deletes it from the upcoming order and changes nothing else |
| `ListModel.InsertPosStable` | lwipserver/freertos/list.c:145-209 | the insertion point separates the values up to the new one from those above it, and sortedness is kept |
| `TaskInvariants.LengthsAddUp` | lwipserver/freertos/tasks.c:651-709 | the lengths of the state lists sum to uxCurrentNumberOfTasks, and uxTasksDeleted is the length of the termination list |
| `TaskInvariants.DelayedEmptyAtWrap` | lwipserver/freertos/tasks.c:369-381 | the "delayed list is empty" assertion at a wrap of the tick count is a theorem |
| `TaskInvariants.WakeDueKeepsInv` | lwipserver/freertos/tasks.c:1973-2049 | the unblocking loop keeps the partition and leaves both delayed lists in order and on their side of the tick count |
| `TaskInvariants.LiveTickKeepsInv` | lwipserver/freertos/tasks.c:1949-2066 | a tick keeps all invariants, with and without a wrap |
| `TaskInvariants.TakeInHand` | lwipserver/freertos/tasks.c:758-765 | uxListRemove takes a task off whatever state list it is in: it is then on none, and every other task and invariant is as before |
| `TaskInvariants.PutReady` | lwipserver/freertos/tasks.c:389-392 | linking that task into its ready list restores the partition, the priorities of the ready lists and the bound on the top priority, and the task is ready |
| `TaskRuns.UneventKeeps` | lwipserver/freertos/tasks.c:768-775 | unlinking the event item takes this task, and no other, off its event list and xPendingReadyList; everything else is kept |
| `TaskRuns.RecheckKeeps` | lwipserver/freertos/tasks.c:3347-3368 | the recomputed unblock time is the least wake value on the delayed list, or portMAX_DELAY |
| `TaskRuns.ReapKeeps` | lwipserver/freertos/tasks.c:3050-3062 | forgetting the first terminated task keeps partition, counters and list order |
| `TaskRuns.ResumeOfNothing` | lwipserver/freertos/tasks.c:1633-1761 | suspending and resuming the scheduler with nothing in between changes nothing |
| `TaskRuns.StepKeeps` | lwipserver/freertos/tasks.c:551-3894 | every critical section of the task functions keeps partition, priorities of ready lists, counters, event items, list order and the unblock time |
| `TaskRuns.RunKeeps` | lwipserver/freertos/tasks.c:551-3894 | so every run does |
| `TaskRuns.StartedKeeps` | lwipserver/freertos/tasks.c:1543-1619 | they hold once the scheduler has started |
| `TaskRuns.PartitionMeansExactlyOne` | lwipserver/freertos/tasks.c:551-819 | the partition read out: each existing task is in exactly one state list, once, and a ready one in the list of its priority |
| `TaskRuns.EveryStateIsPartitioned` | lwipserver/freertos/tasks.c:1671-1761 | in every reachable state the partition and the counters hold and xPendingReadyList is empty unless the scheduler is suspended |
| `TaskRuns.BlockKeepsOrderExactlyIf` | lwipserver/freertos/tasks.c:2389-2460 | the order of the delayed lists survives a timed block exactly if the block time is not 0 |
| `TaskRuns.TicksAreCounted` | lwipserver/freertos/tasks.c:1949-2094 | xTickCount plus uxPendedTicks counts the tick interrupts modulo 2^32 in every run |
| `TaskRuns.DeferredTicksEqualLiveTicks` | lwipserver/freertos/tasks.c:1671-1761 | suspend, k ticks, resume leaves the kernel that k live ticks leave, up to the pending-yield flag |
| `TaskRuns.ReplayIsLiveTicks` | lwipserver/freertos/tasks.c:1718-1736 | replaying the pended ticks is running that many live ticks |
| `TaskRuns.HighestReadyIsHighest` | lwipserver/freertos/tasks.c:307-319 | the downward search ends at the highest non-empty ready list at or below its start |
| `TaskRuns.SuspensionsNest` | lwipserver/freertos/tasks.c:1633-1761 | in every run the scheduler is suspended exactly while it has been suspended more often than resumed |
| `TaskStates.StepMoves` | lwipserver/freertos/tasks.c:551-3894 | every call moves exactly the tasks it is documented to move between ready, delayed, suspended, deleted and waiting, the tick and the resume those whose ticks are up; nobody else changes lists |
| `TaskStates.ReadyMeansReady` | lwipserver/freertos/tasks.c:1039-1045 | a task on no other list is in the ready list of its priority |
| `TaskStates.SuspendedByLists` | lwipserver/freertos/tasks.c:988-1051 | eTaskGetState answers eSuspended for exactly the tasks that vTaskResume takes for suspended |
| `TaskStates.SuspendParks` | lwipserver/freertos/tasks.c:1284-1366 | the task ends on the suspended list, waiting for nothing, and nobody else moves |
| `TaskStates.ResumeReadiesExactlyIf` | lwipserver/freertos/tasks.c:1419-1465 | vTaskResume readies the task exactly if eTaskGetState says it is suspended, moves nobody else, and otherwise does nothing |
| `TaskStates.ResumeFromISRReadiesExactlyIf` | lwipserver/freertos/tasks.c:1473-1538 | the same from an interrupt, or the task is appended to xPendingReadyList while the scheduler is suspended |
| `TaskTime.SleepRefines` | lwipserver/freertos/tasks.c:3071-3098 | filing a wake time under the wrapping count enters the ideal deadline into the unbounded queue, behind equal ones |
| `TaskTime.WakeDueRefines` | lwipserver/freertos/tasks.c:1973-2049 | the unblocking loop wakes exactly the sleepers that are due in ideal time |
| `TaskTime.AdvanceRefines` | lwipserver/freertos/tasks.c:369-381 | counting one tick, list switch included, leaves every sleeper its ideal deadline |
| `TaskTime.LiveTickRefines` | lwipserver/freertos/tasks.c:1949-2050 | one tick of the wrapping machine is one tick of the ideal one, list switch included |
| `TaskTime.StepRefines` | lwipserver/freertos/tasks.c:1671-2110 | every call does to the delayed lists what its actions do to the ideal queue |
| `TaskTime.RunRefines` | lwipserver/freertos/tasks.c:1671-2110 | the wrapping machine refines the ideal one over every run |
| `TaskTime.IdealDelayIsExact` | lwipserver/freertos/tasks.c:922-981 | an ideal sleeper that nobody cancels is in the queue exactly while its deadline lies ahead |
| `Delays.DelayIsExact` | lwipserver/freertos/tasks.c:922-981 | in every run: a task that delays d ticks at ideal time N is on a delayed list exactly while the ideal clock is below N + d, and in its ready list from then on, unless somebody deletes or suspends it |
| `Delays.StepUnties` | lwipserver/freertos/tasks.c:2465-2575 | a task that waits for time alone is not taken to wait for anything else by the calls of others |
| `TaskTime.DueTasksBecomeReady` | lwipserver/freertos/tasks.c:1973-2049 | the tick that reaches the deadline, and no earlier one, takes the task off the delayed lists, and into its ready list |
| `TickCounts.StepCounts` | lwipserver/freertos/tasks.c:369-381 | xNumOfOverflows and xTickCount together count every tick once, pended ticks when the scheduler is resumed |
| `TickCounts.CountersShowIdealTime` | lwipserver/freertos/tasks.c:1949-1971 | in every run the two counters together are the ideal clock of the refinement |
| `TickCounts.CountersReadOneTime` | lwipserver/freertos/tasks.c:2578-2583 | so what a timeout reads of them, 32 bits of each, is the reading of that clock |
| `TickCounts.TimeOutsKeepIdealTime` | lwipserver/freertos/tasks.c:2586-2632 | in every run: a timeout entered and checked later is never reported early in ideal time, and reported exactly when due if the count wrapped at most once in between |
| `TaskSelection.IdleStaysReady` | lwipserver/freertos/tasks.c:2203-2248 | a task that nobody deletes, suspends or blocks is ready after every run |
| `TaskSelection.SwitchContextSelectsHighest` | lwipserver/freertos/tasks.c:297-319 | with some task ready the search terminates without tripping its assertion and the next task in turn of the highest ready priority is selected |
| `TaskSelection.EverySwitchSelectsHighest` | lwipserver/freertos/tasks.c:2203-2259 | so it does in every reachable state, given the idle task stays ready |
| `TaskSelection.WakeDueSwitchesExactlyIf` | lwipserver/freertos/tasks.c:2033-2046 | the unblocking loop asks for a switch exactly if a due task has at least the running priority |
| `TaskSelection.TickPreempts` | lwipserver/freertos/tasks.c:1973-2109 | a tick asks for a switch exactly if such a task is due, or the running one has ready peers, or a yield is pending; otherwise a running task of the highest priority still has it |
| `TaskSelection.ReadiedJoinsTheEnd` | lwipserver/freertos/tasks.c:389-392 | a task that becomes ready takes its turn after every ready peer, but for the one last selected |
| `TaskSelection.PeersTakeTurns` | lwipserver/freertos/tasks.c:307-319 | as many switches as there are tasks at the highest priority run each of them once, in order, and the next round is the same |
| `Preemption.StepKeepsRightful` | lwipserver/freertos/tasks.c:551-3894 | a call that asks for no context switch leaves the running task the highest ready one, or notes a yield |
| `Preemption.DrainYieldsExactlyIf` | lwipserver/freertos/tasks.c:1695-1712 | draining xPendingReadyList notes a yield exactly if a task on it has at least the running priority |
| `Preemption.ReplayYieldsExactlyIf` | lwipserver/freertos/tasks.c:1718-1736 | replaying pended ticks notes one exactly if one of the ticks readies a task of at least the running priority or finds ready peers |
| `Preemption.ResumeYieldsExactlyIf` | lwipserver/freertos/tasks.c:1671-1761 | xTaskResumeAll yields, and says so, exactly if a yield was pending or one of these two calls for it |
| `Preemption.ResumeKeepsRightful` | lwipserver/freertos/tasks.c:1671-1761 | after xTaskResumeAll the running task is the highest ready one, or a yield is noted |
| `Preemption.NobodyIsPassedOver` | lwipserver/freertos/tasks.c:2203-2259 | in every run in which the switches asked for are made, the running task is the highest ready one, or a yield is pending or has just been asked for |
| `Preemption.PendingYieldIsAsked` | lwipserver/freertos/tasks.c:2091-2109 | a pending yield is asked for by the next tick or the call that resumes the scheduler |
| `WakeOrders.StepQueues` | lwipserver/freertos/tasks.c:2262-2575 | every call keeps an event list of queues ordered by the priorities of the waiters and, among equals, by time of arrival |
| `WakeOrders.PlaceKeepsWakeOrder` | lwipserver/freertos/tasks.c:2277-2283 | the insertion by item value puts the newcomer behind everyone who is as urgent |
| `WakeOrders.LeaveKeepsWakeOrder` | lwipserver/freertos/tasks.c:2465-2530 | departures, in whatever number, keep the order of those who stay |
| `WakeOrders.WakesMostUrgent` | lwipserver/freertos/tasks.c:2465-2530 | in every run the task woken has the highest priority of the waiters and among those has waited longest, if no waiter changes priority and each comes with its own item value |
| `WakeOrders.ItemsStayCurrent` | lwipserver/freertos/tasks.c:1220-1229 | in every run without the call of the next row, every event item is in use or has the value of the priority its task runs at |
| `WakeOrders.PrioritySetKeepsItemExactlyIf` | lwipserver/freertos/tasks.c:1202-1229 | vTaskPrioritySet makes an item value out of date exactly if the task runs at an inherited priority, other than the new one, and the item is not in use |
| `WakeOrders.PriorityChangeDoesNotResort` | lwipserver/freertos/tasks.c:1220-1229 | a change of priority rewrites the item value of a waiter where it is linked in; the next task woken is the one that was to be woken before |
| `WakeOrders.PriorityChangeKeepsHeadExactlyIf` | lwipserver/freertos/tasks.c:1120-1277 | after any run, that task is still the most urgent exactly if: the first waiter stays before the second, or another one does not come before the first |
| `WakeOrders.HeadStaysNextExactlyIf` | lwipserver/freertos/tasks.c:3418-3477 | the same for any change of the priority of one waiter, inheritance included |
| `Scenes.RaisedWaiterIsPassedOver` | lwipserver/freertos/tasks.c:1220-1229 | a concrete run after which a waiter raised to priority 2 is not woken before one of priority 1 |
| `WakeOrders.DeliveredValueArrives` | lwipserver/freertos/tasks.c:2533-2575 | in every run the value delivered to a waiter is the one it finds in its item when it runs again, changes of priority and inheritance in between notwithstanding |
| `WakeOrders.WaitedValueStays` | lwipserver/freertos/tasks.c:2321-2384 | and the value a task waits with stays in its item until it is woken |
| `Scenes.InheritedItemGoesStale` | lwipserver/freertos/tasks.c:1202-1229 | a concrete run after which an item value becomes out of date |
| `Schedulers.Scheduler.constructor` | lwipserver/freertos/tasks.c:1543-1619 | the kernel with the idle task alone |
| `Schedulers.Scheduler.Create` | lwipserver/freertos/tasks.c:651-709 | the new task is counted and ready; a yield is due exactly if it is higher than the running one |
| `Schedulers.Scheduler.Delete` | lwipserver/freertos/tasks.c:744-819 | the task is on the termination list and counted there |
| `Schedulers.Scheduler.Suspend` | lwipserver/freertos/tasks.c:1284-1366 | the task leaves its lists for the suspended list |
| `Schedulers.Scheduler.TaskIsSuspended` | lwipserver/freertos/tasks.c:1373-1412 | suspended means: on the suspended list and waiting for nothing |
| `Schedulers.Scheduler.Resume` | lwipserver/freertos/tasks.c:1419-1465 | a suspended task other than the caller becomes ready, and a yield is due exactly if it is at least as high |
| `Schedulers.Scheduler.ResumeFromISR` | lwipserver/freertos/tasks.c:1473-1538 | likewise, or it is pended while the scheduler is suspended |
| `Schedulers.Scheduler.PrioritySet` | lwipserver/freertos/tasks.c:1120-1277 | base and current priority, event item value, ready list, and when a yield is called for |
| `Schedulers.Scheduler.IncrementMutexHeldCount` | lwipserver/freertos/tasks.c:3884-3894 | the held count of the running task goes up and the task is returned |
| `Schedulers.Scheduler.PriorityInherit` | lwipserver/freertos/tasks.c:3418-3477 | a holder of lower priority takes the priority of the running task and moves ready list |
| `Schedulers.Scheduler.PriorityDisinherit` | lwipserver/freertos/tasks.c:3484-3558 | the held count goes down; with the last mutex the holder returns to its base priority |
| `Schedulers.Scheduler.Delay` | lwipserver/freertos/tasks.c:922-981 | the calling task blocks for the given ticks, within one suspension of the scheduler |
| `Schedulers.Scheduler.DelayUntil` | lwipserver/freertos/tasks.c:826-915 | the previous wake time advances by the increment, and the task blocks until it if the case split says so |
| `Schedulers.Scheduler.BlockCurrent` | lwipserver/freertos/tasks.c:2277-2318 | the calling task goes to a delayed list, or to the suspended list for an endless wait |
| `Schedulers.Scheduler.PlaceOnEventList` | lwipserver/freertos/tasks.c:2262-2318 | the event item is linked in by priority and the task blocks |
| `Schedulers.Scheduler.PlaceOnUnorderedEventList` | lwipserver/freertos/tasks.c:2321-2384 | the event item keeps the given value, marked in use, at the end of the list |
| `Schedulers.Scheduler.PlaceOnEventListRestricted` | lwipserver/freertos/tasks.c:2389-2460 | the event item goes to the end of the list and the task blocks |
| `Schedulers.Scheduler.ResetEventItemValue` | lwipserver/freertos/tasks.c:3868-3879 | the value is returned and set back to that of the priority |
| `Schedulers.Scheduler.RemoveFromEventList` | lwipserver/freertos/tasks.c:2465-2530 | the first waiter becomes ready, or pended while the scheduler is suspended |
| `Schedulers.Scheduler.RemoveFromUnorderedEventList` | lwipserver/freertos/tasks.c:2533-2575 | the given waiter gets its value and becomes ready |
| `Schedulers.Scheduler.UnblockDueTasks` | lwipserver/freertos/tasks.c:1973-2049 | the loop readies every due task, in order, and says whether a switch is called for |
| `Schedulers.Scheduler.IncrementTick` | lwipserver/freertos/tasks.c:1939-2110 | one tick, live or pended |
| `Schedulers.Scheduler.ReadyFirstPendingTask` | lwipserver/freertos/tasks.c:1697-1711 | one round of draining the pending list |
| `Schedulers.Scheduler.ReadyPendingTasks` | lwipserver/freertos/tasks.c:1695-1712 | the pending list is drained in order |
| `Schedulers.Scheduler.ReplayPendedTick` | lwipserver/freertos/tasks.c:1722-1730 | one pended tick is replayed |
| `Schedulers.Scheduler.ReplayPendedTicks` | lwipserver/freertos/tasks.c:1718-1736 | all pended ticks are replayed |
| `Schedulers.Scheduler.ResumeAllTasks` | lwipserver/freertos/tasks.c:1671-1761 | the last resume drains the pending list, replays the ticks and reports a pending yield |
| `Schedulers.Scheduler.SwitchContext` | lwipserver/freertos/tasks.c:2203-2259 | selects the next task, or notes the yield while the scheduler is suspended |
| `Schedulers.Scheduler.CheckTasksWaitingTermination` | lwipserver/freertos/tasks.c:3030-3068 | the loop forgets exactly the terminated tasks and keeps the invariants |
| `TaskLists.StateLists.constructor` | lwipserver/freertos/tasks.c:2998-3027 | nine empty lists that share no memory; with the idle task linked in they show the started kernel |
| `TaskLists.StateLists.UnlinkGeneric` | lwipserver/freertos/tasks.c:758-765 | uxListRemove on the linked lists: every state list shows what taking the task off all of them would |
| `TaskLists.StateLists.AddToReadyList` | lwipserver/freertos/tasks.c:389-392 | the item goes to the end of the ready list of its priority and every other list stays |
| `TaskLists.StateLists.AddToDelayedList` | lwipserver/freertos/tasks.c:3071-3098 | the item gets its wake value and goes in by value, into the list the comparison with the tick count says |
| `TaskLists.StateLists.SwitchLists` | lwipserver/freertos/tasks.c:369-381 | exchanging the two list pointers is the switch |
| `TaskLists.StateLists.UnblockDueTasks` | lwipserver/freertos/tasks.c:1973-2049 | the loop over the linked delayed list readies every due task, with its switch answer and next unblock time |
| `TaskLists.StateLists.IncrementTick` | lwipserver/freertos/tasks.c:1949-2050 | a live tick on the linked lists, wrap included, is a live tick of the kernel |
| `TaskLists.StateLists.NextReady` | lwipserver/freertos/tasks.c:318-318 | the next owner in a ready list, whose index moves on |
| `TaskLists.StateLists.FindHighest` | lwipserver/freertos/tasks.c:307-315 | the downward search over list lengths |
| `TaskLists.StateLists.SelectHighest` | lwipserver/freertos/tasks.c:307-319 | the task selected is the one the kernel selects |
| `TaskLists.Disjoint` | lwipserver/freertos/list.c:164-209 | two valid lists with their own end markers share no item: an item tells which list it is in |
| `Deadlines.MustDelayClosedForm` | lwipserver/freertos/tasks.c:844-874 | for any lateness the unsigned case split blocks exactly if the distance modulo 2^32 is below the increment |
| `Deadlines.DelayUntilIsExact` | lwipserver/freertos/tasks.c:839-896 | less than one revolution late it blocks exactly if the next wake time is still ahead, and then never for the current tick |
| `Deadlines.DelayUntilIsRightExactlyIf` | lwipserver/freertos/tasks.c:844-874 | the exact condition for any lateness |
| `Deadlines.LateCallBlocks` | lwipserver/freertos/tasks.c:844-874 | a concrete call, one revolution and five ticks late, that blocks |
| `Deadlines.WakeTimesDoNotDrift` | lwipserver/freertos/tasks.c:842-876 | the k-th wake time is start + k * increment |
| `Deadlines.TimeOut.Check` | lwipserver/freertos/tasks.c:2586-2632 | the answer, the remaining ticks and the renewed entry reading |
| `Deadlines.NeverEarly` | lwipserver/freertos/tasks.c:2586-2632 | expiry is never reported before the wait is over, however old the last check is, and never for an endless wait |
| `Deadlines.ExactWithinOneWrap` | lwipserver/freertos/tasks.c:2586-2632 | with at most one wrap since the last check expiry is reported exactly if the wait is over |
| `Deadlines.TimeOutIsRightExactlyIf` | lwipserver/freertos/tasks.c:2609-2626 | the exact condition for any number of wraps |
| `Deadlines.MissedAfterTwoWraps` | lwipserver/freertos/tasks.c:2609-2626 | a concrete expiry that goes unseen two wraps later |
| `Deadlines.DeadlineIsConserved` | lwipserver/freertos/tasks.c:2617-2623 | a negative answer leaves entry time plus remaining ticks unchanged |
| `Deadlines.RetriesDoNotDrift` | lwipserver/freertos/queue.c:740-763 | however many retries, the first check at or after the deadline reports expiry and none before it |
| `QueueProtocol.StepKeeps` | lwipserver/freertos/queue.c:628-1988 | every critical section of tasks and interrupts keeps the wake-up invariant, the lock states and what a blocking task relies on |
| `QueueProtocol.RunKeeps` | lwipserver/freertos/queue.c:628-1988 | so does every interleaving |
| `QueueProtocol.NoLostWakeUp` | lwipserver/freertos/queue.c:1383-1547 | while a receiver waits, every message is spoken for by a woken receiver or a deferred wake-up; likewise senders and free slots |
| `QueueProtocol.NobodyWaitsInVain` | lwipserver/freertos/queue.c:1876-1988 | with the queue unlocked and the woken tasks run, no receiver waits beside a message, no sender beside a free slot, and never both sides |
| `QueueBlocking.BlocksExactlyIf` | lwipserver/freertos/queue.c:1499-1547 | a task that has locked the queue goes on to block exactly if it then finds no message (no free slot) |
| `QueueBlocking.BlockedTaskWaits` | lwipserver/freertos/queue.c:1488-1547 | from any state in which it runs, a task that is to receive from an empty queue, or send to a full one, can block, and then waits where its priority puts it, everything else being as before |
| `QueueBlocking.OthersGoOn` | lwipserver/freertos/queue.c:776-800 | one that finds what it needs, or whose time is up, leaves the queue as it was |
| `QueueBlocking.ReceiverBlocksDespiteInterrupts` | lwipserver/freertos/queue.c:1488-1547 | with interrupts at any point: a receiver that found no message is on the event list or woken once the queue is unlocked, one that found a message is on no list |
| `QueueBlocking.SenderBlocksDespiteInterrupts` | lwipserver/freertos/queue.c:760-800 | the same for senders |
| `QueueBlocking.InterruptsKeepOff` | lwipserver/freertos/queue.c:1170-1190 | while the queue is locked, interrupts leave both event lists alone |
| `QueueBlocking.RunningTaskMayProceed` | lwipserver/freertos/queue.c:590-800 | a running task may send, receive, peek and lock whenever the queue is not locked |
| `QueueBlocking.LockCanBeReleased` | lwipserver/freertos/queue.c:1876-1988 | the task that has locked the queue can always unlock it |
| `QueueBlocking.WaitersServedInOrder` | lwipserver/freertos/queue.c:1886-1987 | waiters leave an event list from its front and are then among the woken: nobody is overtaken |
| `QueueBlocking.TimedOutLeaves` | lwipserver/freertos/tasks.c:2010-2031 | a waiter whose block time is up leaves the event list, and nobody else does |
| `QueueBlocking.NobodyIsWokenForNothing` | lwipserver/freertos/queue.c:1876-1988 | in every run no more receivers are woken than messages were sent or peeked at, and no more senders than messages were taken |
| `QueueProtocol.ResetKeepsExactlyIf` | lwipserver/freertos/queue.c:275-291 | resetting a queue in use keeps the invariant exactly if at most one sender waits or enough of them have been woken |
| `QueueProtocol.ResetCanStrandASender` | lwipserver/freertos/queue.c:275-291 | a concrete sender left waiting for an empty queue |
| `QueueProtocol.SendStaysInBoundsExactlyIf` | lwipserver/freertos/queue.c:1788-1852 | the count exceeds the length exactly when a full queue of zero-sized items is overwritten |
| `QueueProtocol.OverwritesAreCounted` | lwipserver/freertos/queue.c:1788-1852 | a concrete queue of one zero-sized item that counts two |
| `Queues.FirstInFirstOut` | lwipserver/freertos/queue.c:1784-1873 | with sends to the back only, what was received followed by what is left is what was there followed by what was accepted |
| `Queues.ReceivesInOrder` | lwipserver/freertos/queue.c:1858-1873 | receives empty the deque from its front and get nothing from an empty one |
| `Queues.SentComesOut` | lwipserver/freertos/queue.c:1784-1855 | a send is accepted exactly if the queue is not full or is overwritten; sent to the back an item comes out last, to the front first, and overwriting alone |
| `Queues.Queue.Operate` | lwipserver/freertos/queue.c:628-1547 | any operations in a row on the byte ring leave and return what the deque does; with sends to the back only the items come out in the order they went in |
| `Queues.WriteBehind` | lwipserver/freertos/queue.c:1805-1816 | copying to the write offset appends one whole item |
| `Queues.WriteInFront` | lwipserver/freertos/queue.c:1818-1829 | copying to the read offset and stepping back prepends one whole item |
| `Queues.WriteInFrontOrOver` | lwipserver/freertos/queue.c:1817-1849 | in a ring of one slot it replaces the item, and the write offset is right in either case |
| `Queues.StepForward` | lwipserver/freertos/queue.c:1858-1873 | stepping the read offset forward takes the first item off |
| `Queues.Queue.constructor` | lwipserver/freertos/queue.c:313-386 | a new queue is an empty deque, unlocked |
| `Queues.Queue.WriteAtBack` | lwipserver/freertos/queue.c:1805-1816 | one item is copied in, the write offset stays aligned and wraps at the tail |
| `Queues.Queue.WriteAtFront` | lwipserver/freertos/queue.c:1818-1829 | one item is copied in, the read offset stays aligned and wraps at the head |
| `Queues.Queue.CopyDataToQueue` | lwipserver/freertos/queue.c:1784-1855 | the bytes behave as the deque operation: back, front, or overwrite |
| `Queues.Queue.CopyDataFromQueue` | lwipserver/freertos/queue.c:1858-1873 | the first item is returned and the read offset is one slot further |
| `Queues.Queue.TrySend` | lwipserver/freertos/queue.c:628-736 | the critical section of a send: contents, count, wake-up and result |
| `Queues.Queue.TryReceive` | lwipserver/freertos/queue.c:1384-1475 | the critical section of a receive or peek; a peek leaves the contents and passes the wake-up on |
| `Queues.Queue.Lock` | lwipserver/freertos/queue.c:246-257 | an unlocked side becomes locked and unmodified, a locked one stays |
| `Queues.Queue.UnlockTransmit` | lwipserver/freertos/queue.c:1886-1959 | the loop wakes as many receivers as items were added meanwhile, or all that wait |
| `Queues.Queue.UnlockReceive` | lwipserver/freertos/queue.c:1962-1987 | the same for senders and removals |
| `Queues.Queue.SendFromIsr` | lwipserver/freertos/queue.c:1089-1199 | send from an interrupt: wakes a receiver, or counts the post while the queue is locked |
| `Queues.Queue.ReceiveFromIsr` | lwipserver/freertos/queue.c:1576-1634 | receive from an interrupt, likewise for senders |
| `Queues.Queue.PeekFromIsr` | lwipserver/freertos/queue.c:1664-1688 | returns the first item and changes nothing |
| `Mutexes.MutexAccounting` | lwipserver/freertos/queue.c:1404-1417 | in every reachable state: a holder exactly if the count is 0, held counts equal the mutexes held, base priority when none is held |
| `Mutexes.StepKeeps` | lwipserver/freertos/tasks.c:3418-3558 | every kernel call and mutex operation keeps the accounts and, unless a holder is lowered, what holders owe their waiters |
| `Mutexes.HolderHolds` | lwipserver/freertos/tasks.c:3491-3499 | the assertion of the disinherit function: the holder has a held count above 0 |
| `Mutexes.GiveOnceStepKeeps` | lwipserver/freertos/queue.c:499-533 | the call count of a recursive mutex never underflows |
| `Mutexes.HolderOutranksThoseItBlocks` | lwipserver/freertos/tasks.c:3418-3477 | over every run the holder ranks at least as high as each task did when it blocked under that holder |
| `Mutexes.PriorityNeverDrops` | lwipserver/freertos/tasks.c:3484-3558 | in one step no task that keeps holding a mutex loses priority |
| `Mutexes.HolderKeepsItsPriority` | lwipserver/freertos/tasks.c:3484-3558 | over a whole run a task does not lose priority as long as it holds any mutex |
| `Mutexes.PrioritySetKeepsRepaidExactlyIf` | lwipserver/freertos/tasks.c:1206-1216 | vTaskPrioritySet on a holder breaks the ranking exactly if it runs at its base priority and one it blocks ranks above the new one |
| `Scenes.LoweredHolderIsOutranked` | lwipserver/freertos/tasks.c:1206-1216 | a concrete run after which it does |
| `Mutexes.OutrankedExactlyIf` | lwipserver/freertos/queue.c:1397-1417 | one step keeps every holder ranked above all who wait, earlier waiters included, exactly if it is not the acquisition of a mutex that a higher one still waits for |
| `Mutexes.OutrankedThroughoutExactlyIf` | lwipserver/freertos/queue.c:1383-1547 | in every run in which nobody lowers a holder, holders outrank all who wait throughout exactly if no task ever acquires a mutex past a waiter of higher rank |
| `Scenes.LeftOverWaiterIsOutranked` | lwipserver/freertos/queue.c:1397-1417 | a concrete run, from the start of the scheduler, that ends in such an acquisition |
| `MutexLedgers.MutexKeepsLedger` | lwipserver/freertos/queue.c:485-575 | in every run holder, count and recursive call count are those of a lock with recursion kept from the takes and gives of the run alone |
| `MutexLedgers.HolderKeepsWhileAhead` | lwipserver/freertos/queue.c:540-575 | a task keeps a recursive mutex as long as it has taken it more often than it has given it, whatever else happens |
| `MutexLedgers.GivenBackWhenEven` | lwipserver/freertos/queue.c:485-533 | its next give frees the mutex exactly if it makes the gives even with the takes |
| `MutexLedgers.InheritIsExact` | lwipserver/freertos/tasks.c:3418-3477 | inheriting raises the holder to the priority of the running task if that is higher, and changes nobody else |
| `MutexLedgers.BlockedWaits` | lwipserver/freertos/queue.c:1499-1526 | a task that finds the mutex taken waits for it, with the holder raised to its rank |
| `MutexLedgers.GiveServesFirst` | lwipserver/freertos/queue.c:628-727 | giving back readies the first waiter, and the last mutex held returns the holder to its base priority |
| `MutexYields.GiveKeepsRightfulExactlyIf` | lwipserver/freertos/queue.c:689-727 | giving back keeps the running task the highest ready one, or yields, exactly unless it returns to its base priority, wakes a waiter no higher than that, and another ready task is higher |
| `MutexYields.ForgottenYield` | lwipserver/freertos/queue.c:689-727 | a concrete run, from the start of the scheduler, in which the yield is forgotten |
| `MutexQueues.MutexQueue.constructor` | lwipserver/freertos/queue.c:391-448 | a new mutex is free |
| `MutexQueues.MutexQueue.TryTake` | lwipserver/freertos/queue.c:1384-1431 | takes a free mutex and records the holder |
| `MutexQueues.MutexQueue.BlockOn` | lwipserver/freertos/queue.c:1499-1526 | raises the holder, then blocks on the mutex, recording the rank of the caller |
| `MutexQueues.MutexQueue.HandBack` | lwipserver/freertos/queue.c:1788-1804 | the holder disinherits and the mutex has none; a yield is due exactly if the holder returned to its base priority |
| `MutexQueues.MutexQueue.WakeFirstWaiter` | lwipserver/freertos/queue.c:689-727 | the first waiter is woken if there is one, and then alone decides on the yield, by outranking the running task |
| `MutexQueues.MutexQueue.Give` | lwipserver/freertos/queue.c:628-736 | gives a held mutex back and wakes the first waiter; fails on a free one; and exactly when a yield is called for |
| `MutexQueues.MutexQueue.TryTakeRecursive` | lwipserver/freertos/queue.c:540-575 | counts one more call of the holder, or takes the mutex |
| `MutexQueues.MutexQueue.GiveRecursive` | lwipserver/freertos/queue.c:485-533 | undoes one call; the last one gives the mutex back; fails for others |
| `EventGroups.SetBitsIsExact` | lwipserver/freertos/event_groups.c:480-571 | wakes exactly the waiters satisfied by old and new bits together, gives each of them those bits, clears exactly what they asked for |
| `EventGroups.SetBitsIgnoresOrder` | lwipserver/freertos/event_groups.c:499-566 | the outcome does not depend on the order of the list |
| `EventGroups.ClearUnionIsUnion` | lwipserver/freertos/event_groups.c:541-548 | the bits cleared are the union of the clear-on-exit masks of the woken tasks |
| `EventGroups.ItemParts` | lwipserver/freertos/event_groups.c:334-359 | an item value keeps wait mask and control bits apart |
| `EventGroups.StepKeeps` | lwipserver/freertos/event_groups.c:158-571 | every set, clear, wait, sync, timeout and return keeps the invariant |
| `EventGroups.NoWaiterIsSatisfied` | lwipserver/freertos/event_groups.c:480-571 | in every run no waiting task has its condition satisfied and no control bit is an event bit |
| `EventGroups.ReturnedBitsSatisfy` | lwipserver/freertos/event_groups.c:370-419 | a call returns no control bits, and unless it timed out bits that satisfy what it waited for |
| `EventWaits.WaitersLackTheirBits` | lwipserver/freertos/event_groups.c:613-645 | in every run a task that waits for any bit sees none of its bits set, one that waits for all sees one missing |
| `EventWaits.SetBitsWakesExactly` | lwipserver/freertos/event_groups.c:499-566 | a waiter is woken exactly if any (all) of its bits is set in the old and new bits together, is given those bits, and a bit is lost exactly if a woken task wanted it cleared |
| `EventWaits.WaitBitsExactly` | lwipserver/freertos/event_groups.c:292-359 | a wait returns at once exactly if any (all) of its bits is set or it may not block, and clears exactly what it asked to; else it waits with mask and options in its item |
| `EventWaits.SyncExactly` | lwipserver/freertos/event_groups.c:173-222 | bits are set first; the call returns with the mask cleared if the whole mask is then set, else it waits for all of it |
| `EventWaits.ClearedBitsAreGone` | lwipserver/freertos/event_groups.c:422-446 | cleared bits are gone, so that a wait for them blocks; other waits are not affected |
| `EventWaits.ReturnsWhatWokeIt` | lwipserver/freertos/event_groups.c:370-419 | a woken task returns the bits it was woken with, whatever is set and cleared before it runs |
| `EventWaits.TimedOutReturnsCurrentBits` | lwipserver/freertos/event_groups.c:374-419 | one whose time is up returns the bits as they then are, and clears its own exactly if they have come to meet its call |
| `EventGroups.EventGroup.constructor` | lwipserver/freertos/event_groups.c:138-155 | a new group has no bits and no waiters |
| `EventGroups.EventGroup.SetEventBits` | lwipserver/freertos/event_groups.c:480-571 | the walk over the list, removing as it goes, with the clearing put off to its end; the value returned lacks the bits cleared |
| `EventGroups.EventGroup.ClearEventBits` | lwipserver/freertos/event_groups.c:422-446 | the bits go and the value before is returned |
| `EventGroups.EventGroup.WaitForBits` | lwipserver/freertos/event_groups.c:292-359 | returns at once, or blocks with mask and options in the item value |
| `EventGroups.EventGroup.Rendezvous` | lwipserver/freertos/event_groups.c:173-222 | sets bits, then returns with the mask cleared, or blocks for all of it |
| `EventGroups.EventGroup.FinishWait` | lwipserver/freertos/event_groups.c:374-419 | what a call returns and clears once its task has been unblocked or has timed out |
| `Barrier.ArriveLast` | lwipserver/freertos/event_groups.c:173-191 | the last arrival releases everyone with the whole mask and leaves the mask clear |
| `Barrier.ArriveEarlyGathers` | lwipserver/freertos/event_groups.c:192-214 | an earlier arrival only waits |
| `Barrier.Rendezvous` | lwipserver/freertos/event_groups.c:158-271 | over every interleaving and any number of rounds: no call returns before all have arrived, every value has the whole mask, afterwards the mask is clear and nobody waits |
| `Timers.FileClosedForm` | lwipserver/freertos/timers.c:561-589 | for a command of any age the timer is processed at once exactly if the age modulo 2^32 reaches the period |
| `Timers.FileIsExact` | lwipserver/freertos/timers.c:554-592 | for a command less than one revolution old: at once exactly if expired, else under the epoch its expiry lies in |
| `Timers.FileIsRightExactlyIf` | lwipserver/freertos/timers.c:561-589 | the exact condition for a command of any age |
| `Timers.FiledOneRevolutionLate` | lwipserver/freertos/timers.c:561-571 | a concrete timer of the longest period filed one revolution late |
| `Timers.ExpireShrinks` | lwipserver/freertos/timers.c:732-771 | each round of the list switch brings the timers of the list closer to the end of the epoch |
| `Timers.SwitchLists` | lwipserver/freertos/timers.c:721-777 | terminates for any list and periods; the overflow list becomes the current one, the drained list the new empty overflow list |
| `TimerRuns.ExpireAllKeeps` | lwipserver/freertos/timers.c:732-771 | a list switch calls the timer back for every deadline of the old epoch and keeps the next one |
| `TimerRuns.SwitchCatchesUp` | lwipserver/freertos/timers.c:732-771 | when the switch is over, a timer filed in a list has been called back for every deadline of the old epoch |
| `TimerRuns.DaemonBlocksExactlyIf` | lwipserver/freertos/timers.c:445-502 | the daemon blocks exactly if it has not just switched the lists and no timer is due |
| `TimerRuns.WakeKeeps` | lwipserver/freertos/timers.c:445-502 | so do expiry and reload by the daemon |
| `TimerRuns.ReceiveOurs` | lwipserver/freertos/timers.c:637-684 | catching up through the command queue keeps the timer on schedule exactly if its command is less than a revolution old or its age modulo 2^32 reaches the period |
| `TimerRuns.StepKeepsExactlyIf` | lwipserver/freertos/timers.c:421-715 | every step of the daemon and of the tasks keeps the timer on schedule, but for exactly such a receipt |
| `TimerRuns.InsertTidy` | lwipserver/freertos/timers.c:573-589 | filing keeps both lists sorted |
| `TimerRuns.AutoReloadIsExact` | lwipserver/freertos/timers.c:381-418 | the k-th callback is for start + k * period and not before it, in order, each once, the next deadline being kept in exactly one place |
| `TimerRuns.AutoReloadIsExactExactlyIf` | lwipserver/freertos/timers.c:381-715 | in every run with time sampled within each revolution and no command lost, the timer is on schedule throughout exactly if each of its start commands is received in good time |
| `TimerRuns.SampledInTimeYetLate` | lwipserver/freertos/timers.c:554-592 | a concrete run, all samples less than a revolution apart, that ends with the deadline passed and the callback owed |
| `TimerRuns.LateStartIsReached` | lwipserver/freertos/timers.c:316-356 | that run starts in a state reached from an empty daemon |
| `TimerRuns.DaemonBlocksForSomeTime` | lwipserver/freertos/timers.c:445-502 | in every run: when the daemon blocks with a timer in either list, the block time is above 0 and ends at the first expiry |
| `TimerRuns.IdleIsCaughtUp` | lwipserver/freertos/timers.c:460-491 | when the daemon blocks with no command left for the timer, there have been exactly (now - start) / period callbacks |
| `OneShots.OneShotIsExactExactlyIf` | lwipserver/freertos/timers.c:381-418 | in every run a one-shot timer is armed until its deadline, called back once, not before it, and dormant afterwards, exactly if its start command is received in good time |
| `OneShots.OneShotHasFiredExactlyIf` | lwipserver/freertos/timers.c:460-491 | when the daemon blocks with no command left for it, it has been called back exactly if its deadline has passed |
| `OneShots.RestartKeepsNewSchedule` | lwipserver/freertos/timers.c:656-684 | starting or resetting a running timer puts it on the schedule of the new start, exactly if the command is received in good time |
| `OneShots.ChangePeriodRestarts` | lwipserver/freertos/timers.c:692-704 | changing the period arms the timer for one new period from now, and calls nothing back |
| `TimerRuns.StopSilences` | lwipserver/freertos/timers.c:634-690 | a stop or delete command takes the timer out of both lists before time is sampled, so it is not called back in that round either |
| `TimerRuns.DormantStaysSilent` | lwipserver/freertos/timers.c:594-715 | and it is not called back in any run until it is commanded again |
| `TimerDaemons.TimerDaemon.constructor` | lwipserver/freertos/timers.c:780-815 | empty lists and an empty queue |
| `TimerDaemons.TimerDaemon.CreateTimer` | lwipserver/freertos/timers.c:275-313 | for a period above 0 the timer is there with its period and reload flag, and in no list |
| `TimerDaemons.TimerDaemon.GenericCommand` | lwipserver/freertos/timers.c:316-356 | the command is queued, or lost if the queue is full |
| `TimerDaemons.TimerDaemon.InsertTimerInActiveList` | lwipserver/freertos/timers.c:554-592 | processed now, or filed in one of the lists |
| `TimerDaemons.TimerDaemon.ExpireHead` | lwipserver/freertos/timers.c:732-771 | one timer is called back and reloaded into the same list or through the queue |
| `TimerDaemons.TimerDaemon.SwitchTimerLists` | lwipserver/freertos/timers.c:721-777 | the loop drains the current list and the lists change roles |
| `TimerDaemons.TimerDaemon.SampleTimeNow` | lwipserver/freertos/timers.c:531-551 | switches the lists if the count has wrapped since the last sample |
| `TimerDaemons.TimerDaemon.ProcessExpiredTimer` | lwipserver/freertos/timers.c:381-418 | the first timer is reloaded and called back |
| `TimerDaemons.TimerDaemon.GetNextExpireTime` | lwipserver/freertos/timers.c:505-528 | the first expiry time, or 0 for an empty list |
| `TimerDaemons.TimerDaemon.ProcessTimerOrBlockTask` | lwipserver/freertos/timers.c:445-502 | processes an expired timer, or blocks until the next expiry or wrap, and then for at least one tick |
| `TimerDaemons.TimerDaemon.ProcessReceivedCommand` | lwipserver/freertos/timers.c:594-715 | one command is carried out |

## Left out

- TaskRuns.StepKeeps: takes block times above 0, which every caller passes; see `TaskRuns.BlockKeepsOrderExactlyIf`.
- TaskLists.StateLists.IncrementTick: the generic list items are linked on the heap; the event items, which the same loop unlinks, are those of the sequence model.
- WakeOrders.WakesMostUrgent: takes a list that tasks join through vTaskPlaceOnEventList alone, with their own item value, and no change of a waiter's priority; what such a change does is stated on its own.
- Delays.DelayIsExact: takes a task that nobody deletes or suspends and that does not block again in the run.
- TaskRuns.DeferredTicksEqualLiveTicks: up to 2^32 - 1 pended ticks, beyond which uxPendedTicks wraps.
- QueueProtocol.NoLostWakeUp: excludes xQueueGenericReset of a queue in use, and deleting or suspending a woken task before it runs.
- Queues.Queue.TrySend: one pass of the loop; the passes are put together as steps in `QueueProtocol`, with the time-out of `Deadlines` between them.
- Queues.Queue.CopyDataToQueue: counts are unbounded; the width of uxMessagesWaiting, xRxLock and xTxLock is not modelled.
- Mutexes.MutexAccounting: excludes gives by tasks that do not hold the mutex, gives from interrupts, and the deletion of a holder; inheritance is not transitive, as in the code.
- EventGroups.EventGroup.SetEventBits: the code reads the value it returns after the scheduler has been resumed, when other tasks may have changed the bits; the value here is that of the walk's end. The wake-up of each task through the scheduler is left to `Schedulers.Scheduler.RemoveFromUnorderedEventList`.
- TimerRuns.AutoReloadIsExact: takes a timer that was dormant when it was started and a run in which no command is lost; other tasks' commands come between the daemon's functions, not inside one.
- TimerDaemons.TimerDaemon.ProcessReceivedCommand: one command; the loop over the queue is a run of such steps, each with its own sample of the time.
- Task notifications: they block with no event item and form a small state machine of their own.
- Tasks created before the scheduler is started, and the end of the scheduler.
- Deleting a task twice, deleting queues and event groups, pended function calls, and the freeing of memory.
- Queue sets, the alternative and the co-routine queue functions, the queue registry, and `croutine.c`.
- Tickless idle, run-time statistics, task lists in text, stack checks, MPU, newlib and thread-local storage.
- The port layer, memory allocation and its failure, hooks, tracing, and everything outside `lwipserver/freertos`.
- Preemption.NobodyIsPassedOver: takes a run of kernel calls in which a call that asks for a context switch is followed by one; the functions of queue.c that take a mutex back are stated on their own in `MutexYields`.
- The mutex holder kept for debuggers, names, numbers and handles of tasks, queues and timers.
