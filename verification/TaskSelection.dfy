/** Who runs: task selection, the always-ready idle task and preemption by the tick. */
module TaskSelection {
  import opened Ticks
  import opened ListModel
  import opened Tasks
  import opened TaskInvariants
  import opened TaskRuns

  // ---------- the idle task stays ready ----------

  /** In existence and on no list but possibly a ready list. */
  ghost predicate NotAside(k: Kernel, t: TaskId)
  {
    t in k.tcb && !k.IsBlocked(t) && t !in k.terminated
  }

  lemma {:induction false} NotAsideIsReady(k: Kernel, t: TaskId)
    requires WellFormed(k)
    ensures k.IsReady(t) <==> NotAside(k, t)
  {
    Places(k, t);
  }

  /** A call that neither deletes, suspends nor blocks `t`. */
  ghost predicate Spares(k: Kernel, c: Call, t: TaskId)
  {
    && (c.Delete? || c.Suspend? ==> c.t != t)
    && (c.Block? || c.PlaceOnEvent? || c.PlaceOnUnordered? || c.PlaceRestricted? ==> k.current != t)
  }

  /** `r` has no task on a list other than a ready list that `k` did not have on one. */
  ghost predicate Shrinks(k: Kernel, r: Kernel)
  {
    r.tcb.Keys == k.tcb.Keys && forall t :: NotAside(k, t) ==> NotAside(r, t)
  }

  lemma {:induction false} WakeDueShrinks(k: Kernel, switch: bool)
    ensures Shrinks(k, WakeDue(k, switch).0)
    decreases |k.delayed|
  {
    if k.delayed != [] && WakeOf(k.tcb, k.delayed[0]) <= k.tick {
      WakeDueShrinks(ReadyUp(k, k.delayed[0]), switch || k.PriorityOf(k.delayed[0]) >= k.PriorityOf(k.current));
    }
  }

  lemma {:induction false} LiveTickShrinks(k: Kernel)
    ensures Shrinks(k, LiveTick(k).0)
  {
    LiveTickIsWakeDue(k);
    WakeDueShrinks(Advanced(k), false);
  }

  lemma {:induction false} DrainShrinks(k: Kernel)
    ensures Shrinks(k, DrainPending(k))
    decreases |k.pending|
  {
    if k.pending != [] {
      DrainShrinks(DrainedOnce(k));
    }
  }

  lemma {:induction false} ReplayShrinks(k: Kernel)
    ensures Shrinks(k, ReplayTicks(k))
    decreases k.pendedTicks
  {
    if k.pendedTicks > 0 {
      LiveTickShrinks(k);
      ReplayShrinks(ReplayTick(k));
    }
  }

  lemma {:induction false} SleepSpares(k: Kernel, x: TaskId, wake: Tick, t: TaskId)
    requires x in k.tcb && NotAside(k, t) && t != x
    ensures NotAside(Sleep(k, x, wake), t)
  {
    var tcb := k.tcb[x := k.tcb[x].(wakeValue := wake)];
    PutMembers(k.delayed, InsertPos(WakeValues(tcb, k.delayed), wake), x);
    PutMembers(k.overflow, InsertPos(WakeValues(tcb, k.overflow), wake), x);
  }

  lemma {:induction false} BlockSpares(k: Kernel, forever: bool, ticks: Tick, t: TaskId)
    requires k.current in k.tcb && NotAside(k, t) && t != k.current
    ensures NotAside(BlockOnEvent(k, forever, ticks), t)
  {
    var u := Unlist(k, k.current);
    assert NotAside(u, t);
    if !forever {
      SleepSpares(u, k.current, Plus(k.tick, ticks), t);
    }
  }

  lemma {:induction false} BlockingSpares(k: Kernel, c: Call, t: TaskId)
    requires Allowed(k, c) && k.current != t && NotAside(k, t)
    requires c.Block? || c.PlaceOnEvent? || c.PlaceOnUnordered? || c.PlaceRestricted?
    ensures NotAside(Apply(k, c), t)
  {
    if c.Block? {
      BlockSpares(k, false, c.ticks, t);
    } else if c.PlaceOnEvent? {
      BlockSpares(k.(events := k.events[c.e := InsertByEvent(k.tcb, k.EventList(c.e), k.current)]),
                  c.ticks == MAX_DELAY, c.ticks, t);
    } else if c.PlaceRestricted? {
      BlockSpares(k.(events := k.events[c.e := k.EventList(c.e) + [k.current]]), c.forever, c.ticks, t);
    } else {
      var v := SetEventValue(k, k.current, MarkInUse(c.value));
      BlockSpares(v.(events := k.events[c.e := k.EventList(c.e) + [k.current]]), c.ticks == MAX_DELAY, c.ticks, t);
    }
  }

  lemma {:induction false} ClockSpares(k: Kernel, c: Call, t: TaskId)
    requires Allowed(k, c) && NotAside(k, t) && (c.IncrementTick? || c.ResumeAll?)
    ensures NotAside(Apply(k, c), t)
  {
    if c.IncrementTick? {
      LiveTickShrinks(k);
    } else {
      var k1 := k.(suspensions := k.suspensions - 1);
      DrainShrinks(k1);
      ReplayShrinks(DrainPending(k1));
    }
  }

  lemma {:induction false} StepSpares(k: Kernel, c: Call, t: TaskId)
    requires Inv(k) && Allowed(k, c) && Spares(k, c, t) && NotAside(k, t)
    ensures NotAside(Apply(k, c), t)
  {
    if c.Block? || c.PlaceOnEvent? || c.PlaceRestricted? || c.PlaceOnUnordered? {
      BlockingSpares(k, c, t);
    } else if c.IncrementTick? || c.ResumeAll? {
      ClockSpares(k, c, t);
    } else {
      OtherStepSpares(k, c, t);
    }
  }

  lemma {:induction false} OtherStepSpares(k: Kernel, c: Call, t: TaskId)
    requires Inv(k) && Allowed(k, c) && Spares(k, c, t) && NotAside(k, t)
    requires !c.Block? && !c.PlaceOnEvent? && !c.PlaceRestricted? && !c.PlaceOnUnordered? && !c.IncrementTick?
             && !c.ResumeAll?
    ensures NotAside(Apply(k, c), t)
  {
    if c.Reap? {
      assert k.terminated[0] in k.terminated;
    }
  }

  /** The idle task is ready in every state of every run that never deletes, suspends or blocks it. */
  lemma {:induction false} IdleStaysReady(k: Kernel, calls: seq<Call>, idle: TaskId)
    requires Inv(k) && Legal(k, calls) && k.IsReady(idle)
    requires SparesAll(k, calls, idle)
    ensures Inv(After(k, calls)) && After(k, calls).IsReady(idle)
    decreases |calls|
  {
    if calls != [] {
      NotAsideIsReady(k, idle);
      StepSpares(k, calls[0], idle);
      StepKeeps(k, calls[0]);
      NotAsideIsReady(Apply(k, calls[0]), idle);
      IdleStaysReady(Apply(k, calls[0]), calls[1..], idle);
    }
  }

  ghost predicate SparesAll(k: Kernel, calls: seq<Call>, t: TaskId)
    requires Legal(k, calls)
    decreases |calls|
  {
    calls == [] || (Spares(k, calls[0], t) && SparesAll(Apply(k, calls[0]), calls[1..], t))
  }

  // ---------- selection ----------

  /** No ready task has a higher priority than `t`. */
  ghost predicate Highest(k: Kernel, t: TaskId)
  {
    HighestIn(k.tcb, k.ready, k.PriorityOf(t))
  }

  ghost predicate HighestIn(tcb: map<TaskId, Tcb>, ready: ReadyLists, p: Priority)
  {
    forall x :: x in tcb && x in ready[tcb[x].priority].items ==> tcb[x].priority <= p
  }

  /** With any task ready, the downward search of taskSELECT_HIGHEST_PRIORITY_TASK ends at a non-empty
      list (so its assertion never fails), nothing above it is ready, and the task selected is the one
      whose turn it is there. */
  lemma {:induction false} SwitchContextSelectsHighest(k: Kernel, some: TaskId)
    requires Inv(k) && k.suspensions == 0 && k.IsReady(some)
    ensures var r, p := Tasks.SwitchContext(k), HighestReady(k.ready, k.topReady);
            && k.ready[p].items != []
            && (forall q :: p < q < PRIORITIES ==> k.ready[q].items == [])
            && r.current == k.ready[p].Upcoming()[0]
            && r.ready[p].Upcoming() == k.ready[p].Upcoming()[1..] + [r.current]
            && r.PriorityOf(r.current) == p && Highest(r, r.current) && !r.yieldPending
  {
    var s := k.PriorityOf(some);
    assert s <= k.topReady;
    HighestReadyIsHighest(k.ready, k.topReady);
    var p := HighestReady(k.ready, k.topReady);
    NextRotates(k.ready[p]);
    var r := Tasks.SwitchContext(k);
    assert r.current in k.ready[p].items;
    assert r.PriorityOf(r.current) == p;
    forall x | x in r.tcb && r.IsReady(x)
      ensures r.PriorityOf(x) <= p
    {
      assert x in k.ready[k.PriorityOf(x)].items;
    }
  }

  /** In every run that leaves the idle task alone, a context switch runs a ready task of the highest
      priority. */
  lemma {:induction false} EverySwitchSelectsHighest(idle: TaskId, calls: seq<Call>)
    requires Legal(Started(idle), calls) && SparesAll(Started(idle), calls, idle)
    requires After(Started(idle), calls).suspensions == 0
    ensures var r := Tasks.SwitchContext(After(Started(idle), calls));
            r.IsReady(r.current) && Highest(r, r.current)
  {
    StartedKeeps(idle);
    IdleStaysReady(Started(idle), calls, idle);
    var k := After(Started(idle), calls);
    SwitchContextSelectsHighest(k, idle);
    var p := HighestReady(k.ready, k.topReady);
    assert Tasks.SwitchContext(k).current in k.ready[p].items;
  }

  // ---------- time slices ----------

  /** The kernel after n context switches with nothing in between, and the tasks they ran. */
  function Switches(k: Kernel, n: nat): Kernel
    decreases n
  {
    if n == 0 then k else Switches(Tasks.SwitchContext(k), n - 1)
  }

  function Ran(k: Kernel, n: nat): seq<TaskId>
    decreases n
  {
    if n == 0 then [] else [Tasks.SwitchContext(k).current] + Ran(Tasks.SwitchContext(k), n - 1)
  }

  /** A task that becomes ready runs after every peer that was ready before, but for the one last selected. */
  lemma {:induction false} ReadiedJoinsTheEnd(k: Kernel, t: TaskId)
    ensures var l, r := k.ready[k.PriorityOf(t)], MakeReady(k, t).ready[k.PriorityOf(t)];
            r.Upcoming() == if l.index == 0 then l.Upcoming() + [t]
                            else l.Upcoming()[..|l.items| - 1] + [t, l.items[l.index - 1]]
  {
    InsertEndOrder(k.ready[k.PriorityOf(t)], t);
  }

  lemma {:induction false} SwitchTurns(k: Kernel, p: Priority)
    requires k.suspensions == 0 && k.ready[p].items != [] && p <= k.topReady
    requires forall q :: p < q < PRIORITIES ==> k.ready[q].items == []
    ensures var r := Tasks.SwitchContext(k);
            && r.suspensions == 0 && r.topReady == p && r.current == k.ready[p].Next().Indexed()
            && r.ready == k.ready[p := k.ready[p].Next()]
  {
    HighestReadyIsHighest(k.ready, k.topReady);
    var h := HighestReady(k.ready, k.topReady);
    assert h == p;
  }

  /** The ready tasks of the highest priority take turns: as many switches as there are of them run each once, and the
      next round is like the one before. */
  lemma {:induction false} PeersTakeTurns(k: Kernel, p: Priority, n: nat)
    requires k.suspensions == 0 && k.ready[p].items != [] && p <= k.topReady
    requires forall q :: p < q < PRIORITIES ==> k.ready[q].items == []
    requires n <= |k.ready[p].items|
    ensures Ran(k, n) == k.ready[p].Upcoming()[..n]
    ensures n == |k.ready[p].items| ==>
              && multiset(Ran(k, n)) == multiset(k.ready[p].items)
              && Switches(k, n).ready[p].Upcoming() == k.ready[p].Upcoming()
  {
    SwitchesTakeNext(k, p, n);
    TakeNextIsPrefix(k.ready[p], n);
    FullRound(k.ready[p]);
  }

  lemma {:induction false} SwitchesTakeNext(k: Kernel, p: Priority, n: nat)
    requires k.suspensions == 0 && k.ready[p].items != [] && p <= k.topReady
    requires forall q :: p < q < PRIORITIES ==> k.ready[q].items == []
    ensures Ran(k, n) == TakeNext(k.ready[p], n).0 && Switches(k, n).ready[p] == TakeNext(k.ready[p], n).1
    decreases n
  {
    if n > 0 {
      SwitchTurns(k, p);
      SwitchesTakeNext(Tasks.SwitchContext(k), p, n - 1);
    }
  }

  // ---------- preemption by the tick ----------

  lemma {:induction false} WakeDuePreempts(k: Kernel, switch: bool)
    requires WellFormed(k) && k.pending == [] && Due(k)
    requires switch || Highest(k, k.current)
    ensures WakeDue(k, switch).1 || Highest(WakeDue(k, switch).0, k.current)
    decreases |k.delayed|
  {
    if k.delayed != [] && WakeOf(k.tcb, k.delayed[0]) <= k.tick {
      var t := k.delayed[0];
      var s := switch || k.PriorityOf(t) >= k.PriorityOf(k.current);
      DueStep(k);
      if !s {
        ReadyUpHighest(k, t);
      }
      WakeDuePreempts(ReadyUp(k, t), s);
    }
  }

  lemma {:induction false} ReadyUpHighest(k: Kernel, t: TaskId)
    requires Highest(k, k.current) && k.PriorityOf(t) < k.PriorityOf(k.current)
    ensures Highest(ReadyUp(k, t), k.current)
  {
    var r := ReadyUp(k, t);
    var p := k.PriorityOf(t);
    var l := Unlist(k, t).ready[p];
    PutMembers(l.items, if l.index == 0 then |l.items| else l.index - 1, t);
    forall x | x in r.tcb && r.IsReady(x)
      ensures r.PriorityOf(x) <= r.PriorityOf(k.current)
    {
      assert x == t || k.IsReady(x);
    }
  }

  /** A task on the current delayed list whose time has come and that is at least as urgent as the running one. */
  predicate Calls(k: Kernel, t: TaskId) {
    t in k.delayed && WakeOf(k.tcb, t) <= k.tick && k.PriorityOf(t) >= k.PriorityOf(k.current)
  }

  /** The unblocking loop asks for a switch exactly if it readies such a task. */
  lemma {:induction false} WakeDueSwitchesExactlyIf(k: Kernel, switch: bool)
    requires WellFormed(k) && k.pending == [] && Due(k)
    ensures WakeDue(k, switch).1 <==> switch || exists t :: Calls(k, t)
    decreases |k.delayed|
  {
    if k.delayed != [] && WakeOf(k.tcb, k.delayed[0]) <= k.tick {
      var h := k.delayed[0];
      DueStep(k);
      WakeDueSwitchesExactlyIf(ReadyUp(k, h), switch || k.PriorityOf(h) >= k.PriorityOf(k.current));
      CallsAfterHead(k, ReadyUp(k, h));
    } else {
      NobodyCalls(k);
    }
  }

  lemma {:induction false} NobodyCalls(k: Kernel)
    requires Due(k) && (k.delayed == [] || k.tick < WakeOf(k.tcb, k.delayed[0]))
    ensures !exists t :: Calls(k, t)
  {
    if k.delayed != [] {
      HeadIsLeast(k.tcb, k.delayed);
    }
  }

  lemma CallsAfterHead(k: Kernel, r: Kernel)
    requires k.delayed != [] && r.delayed == Without(k.delayed, k.delayed[0])
    requires r.tcb == k.tcb && r.tick == k.tick && r.current == k.current && WakeOf(k.tcb, k.delayed[0]) <= k.tick
    ensures (exists t :: Calls(k, t))
            <==> k.PriorityOf(k.delayed[0]) >= k.PriorityOf(k.current) || exists t :: Calls(r, t)
  {
    if t :| Calls(k, t) && t != k.delayed[0] {
      assert Calls(r, t);
    }
    if t :| Calls(r, t) {
      assert Calls(k, t);
    }
    if k.PriorityOf(k.delayed[0]) >= k.PriorityOf(k.current) {
      assert Calls(k, k.delayed[0]);
    }
  }

  lemma LiveTickFlag(k: Kernel)
    ensures var a := Advanced(k);
            var w := if a.tick >= a.nextUnblock then WakeDue(a, false) else (a, false);
            && LiveTick(k).0 == w.0
            && (LiveTick(k).1 <==> w.1 || |w.0.ready[w.0.PriorityOf(w.0.current)].items| > 1 || w.0.yieldPending)
  {
  }

  /** A tick asks for a context switch exactly if the time has come for a task at least as urgent as the running
      one, or the running task shares its priority with another ready task, or a yield is pending.  If it does
      not, a running task that had the highest priority still has it. */
  lemma {:induction false} TickPreempts(k: Kernel)
    requires Inv(k) && k.suspensions == 0
    ensures var r := LiveTick(k).0;
            LiveTick(k).1 <==> || (exists t :: Calls(Advanced(k), t))
                               || |r.ready[r.PriorityOf(k.current)].items| > 1
                               || k.yieldPending
    ensures Highest(k, k.current) ==> LiveTick(k).1 || Highest(LiveTick(k).0, k.current)
  {
    var a := Advanced(k);
    AdvancedIsDue(k);
    assert Highest(k, k.current) ==> Highest(a, a.current);
    if a.tick >= a.nextUnblock {
      WakeDueSwitchesExactlyIf(a, false);
      WakeDueKeeps(a, false);
      if Highest(k, k.current) {
        WakeDuePreempts(a, false);
      }
    }
    LiveTickFlag(k);
  }
}
