/** The queue object used as a mutex, and the functions of queue.c that work on it in place. */
module MutexQueues {
  import opened Ticks
  import opened Tasks
  import opened Mutexes
  import opened Schedulers

  /** Whether giving back returns the holder to its base priority. */
  predicate ReturnsToBase(k: Kernel, h: Holder) {
    h.Task? && h.id in k.tcb && k.tcb[h.id].priority != k.tcb[h.id].basePriority && k.tcb[h.id].mutexesHeld == 1
  }

  /** Whether a give calls for a yield: with a waiter, if that one outranks the giving task at the priority it
      now has; without, if that priority has just been lowered. */
  predicate YieldsAfter(k: Kernel, e: EventId, lowered: bool) {
    if k.EventList(e) == [] then lowered else k.PriorityOf(k.EventList(e)[0]) > k.PriorityOf(k.current)
  }

  class MutexQueue {
    const waiters: EventId          // xTasksWaitingToReceive
    const recursive: bool
    var holder: Holder              // pxMutexHolder
    var count: nat                  // uxMessagesWaiting
    var calls: nat                  // uxRecursiveCallCount
    ghost var ranks: map<TaskId, Priority>
    ghost var owed: set<TaskId>

    ghost function Model(): Mutex
      reads this
    {
      Mutex(holder, count, calls, recursive, ranks, owed)
    }

    /** This mutex and the kernel `s`, as a system of one mutex. */
    ghost function With(s: Scheduler): System
      reads this, s
    {
      System(s.Model(), map[waiters := Model()])
    }

    /** xQueueCreateMutex. */
    constructor (waiters: EventId, recursive: bool)
      ensures this.waiters == waiters && this.recursive == recursive && Model() == Fresh(recursive)
    {
      this.waiters, this.recursive := waiters, recursive;
      holder, count, calls := Nobody, 0, 0;
      ranks, owed := map[], {};
      new;
      count := count + 1;
    }

    /** The critical section of xQueueGenericReceive. */
    method TryTake(s: Scheduler) returns (taken: bool)
      requires s.current in s.tcb
      modifies this, s
      ensures taken == (old(count) > 0)
      ensures With(s) == Mutexes.TryTake(old(With(s)), waiters)
    {
      taken := count > 0;
      if taken {
        count := count - 1;
        var t := s.IncrementMutexHeldCount();
        holder := Task(t);
        owed := {};
      }
    }

    /** vTaskPriorityInherit and vTaskPlaceOnEventList, as xQueueGenericReceive calls them for a mutex. */
    method InheritAndPlace(s: Scheduler, ticks: Tick)
      requires s.current in s.tcb && (holder.Task? ==> holder.id in s.tcb)
      modifies s
      ensures s.Model().current == old(s.current) && old(s.current) in InheritIfHeld(old(s.Model()), holder).tcb
      ensures s.Model() == PlaceOnEvent(InheritIfHeld(old(s.Model()), holder), waiters, ticks)
    {
      InheritKeepsTasks(s.Model(), holder);
      if holder.Task? {
        s.PriorityInherit(holder.id);
      }
      s.PlaceOnEventList(waiters, ticks);
    }

    /** How xQueueGenericReceive blocks, with the scheduler suspended and the mutex found taken. */
    method BlockOn(s: Scheduler, ticks: Tick)
      requires s.current in s.tcb && (holder.Task? ==> holder.id in s.tcb)
      modifies this, s
      ensures With(s) == Mutexes.BlockOn(old(With(s)), waiters, ticks)
    {
      if count == 0 {
        ghost var k, x := s.Model(), Model();
        ranks := ranks[s.current := k.PriorityOf(s.current)];
        owed := owed + {s.current};
        InheritAndPlace(s, ticks);
        BlockedSystem(k, waiters, x, ticks);
      }
    }

    lemma BlockedSystem(k: Kernel, e: EventId, x: Mutex, ticks: Tick)
      requires k.current in k.tcb && (x.holder.Task? ==> x.holder.id in k.tcb) && x.count == 0
      ensures k.current in InheritIfHeld(k, x.holder).tcb
      ensures Mutexes.BlockOn(System(k, map[e := x]), e, ticks)
              == System(PlaceOnEvent(InheritIfHeld(k, x.holder), e, ticks),
                        map[e := Asked(x, k.current, k.PriorityOf(k.current))])
    {
      InheritKeepsTasks(k, x.holder);
      var y := Asked(x, k.current, k.PriorityOf(k.current));
      assert map[e := x][e := y] == map[e := y];
    }

    lemma InheritKeepsTasks(k: Kernel, h: Holder)
      requires h.Task? ==> h.id in k.tcb
      ensures InheritIfHeld(k, h).tcb.Keys == k.tcb.Keys && InheritIfHeld(k, h).current == k.current
    {
    }

    /** prvCopyDataToQueue for a mutex. */
    method HandBack(s: Scheduler) returns (yieldRequired: bool)
      requires MayDisinherit(s.Model(), holder)
      modifies this`holder, this`count, s
      ensures Model() == Given(old(Model())) && s.Model() == DisinheritIfHeld(old(s.Model()), old(holder))
      ensures yieldRequired <==> old(ReturnsToBase(s.Model(), holder))
    {
      yieldRequired := false;
      if holder.Task? {
        yieldRequired := s.PriorityDisinherit(holder.id);
      }
      holder := Nobody;
      count := count + 1;
    }

    /** Wakes the first waiter, if there is one; whether a yield is called for then. */
    method WakeFirstWaiter(s: Scheduler, disinherited: bool) returns (yieldRequired: bool)
      modifies s
      ensures s.Model() == WakeWaiter(old(s.Model()), waiters)
      ensures yieldRequired <==> YieldsAfter(old(s.Model()), waiters, disinherited)
    {
      yieldRequired := disinherited;
      if waiters in s.events && s.events[waiters] != [] {
        yieldRequired := s.RemoveFromEventList(waiters);
      }
    }

    /** The critical section of xQueueGenericSend; whether a yield is called for. */
    method Give(s: Scheduler) returns (given: bool, yieldRequired: bool)
      requires MayDisinherit(s.Model(), holder)
      modifies this, s
      ensures given == (old(count) < 1)
      ensures With(s) == Mutexes.Give(old(With(s)), waiters)
      ensures yieldRequired <==>
                given && YieldsAfter(DisinheritIfHeld(old(s.Model()), old(holder)), waiters,
                                     old(ReturnsToBase(s.Model(), holder)))
    {
      given, yieldRequired := count < 1, false;
      if given {
        ghost var was := With(s);
        yieldRequired := HandBack(s);
        yieldRequired := WakeFirstWaiter(s, yieldRequired);
        assert was.mutexes[waiters := Model()] == With(s).mutexes;
      }
    }

    /** xQueueTakeMutexRecursive, up to where it would block. */
    method TryTakeRecursive(s: Scheduler) returns (taken: bool)
      requires s.current in s.tcb
      modifies this, s
      ensures taken == old(holder == Task(s.current) || count > 0)
      ensures With(s) == Mutexes.TryTakeRecursive(old(With(s)), waiters)
    {
      if holder == Task(s.current) {
        calls := calls + 1;
        taken := true;
      } else {
        taken := TryTake(s);
        if taken {
          calls := calls + 1;
        }
      }
    }

    /** xQueueGiveMutexRecursive. */
    method GiveRecursive(s: Scheduler) returns (passed: bool)
      requires MayDisinherit(s.Model(), holder)
      requires holder == Task(s.current) ==> calls > 0
      modifies this, s
      ensures passed == old(holder == Task(s.current))
      ensures With(s) == Mutexes.GiveRecursive(old(With(s)), waiters)
    {
      passed := holder == Task(s.current);
      if passed {
        calls := calls - 1;
        if calls == 0 {
          var given, yieldRequired := Give(s);
        }
      }
    }
  }
}
