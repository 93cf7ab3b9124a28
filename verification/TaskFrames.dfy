/** What each call of tasks.c leaves alone: control blocks, event lists and the termination list. */
module TaskFrames {
  import opened Ticks
  import opened ListModel
  import opened Tasks
  import opened TaskInvariants
  import TaskRuns

  predicate SameRank(a: Tcb, b: Tcb) {
    a.priority == b.priority && a.basePriority == b.basePriority && a.mutexesHeld == b.mutexesHeld
  }

  ghost predicate SameRanks(a: map<TaskId, Tcb>, b: map<TaskId, Tcb>) {
    a.Keys == b.Keys && forall t :: t in a ==> SameRank(a[t], b[t])
  }

  /** Nobody has joined the termination list or an event list. */
  ghost predicate Fewer(k: Kernel, r: Kernel) {
    && (forall t :: t in r.terminated ==> t in k.terminated)
    && (forall e, t :: t in r.EventList(e) ==> t in k.EventList(e))
  }

  lemma {:induction false} WakeDueFewer(k: Kernel, switch: bool)
    ensures Fewer(k, WakeDue(k, switch).0)
    decreases |k.delayed|
  {
    if k.delayed != [] && WakeOf(k.tcb, k.delayed[0]) <= k.tick {
      ReadyUpFewer(k, k.delayed[0]);
      WakeDueFewer(ReadyUp(k, k.delayed[0]), switch || k.PriorityOf(k.delayed[0]) >= k.PriorityOf(k.current));
    }
  }

  lemma ReadyUpFewer(k: Kernel, t: TaskId)
    ensures Fewer(k, ReadyUp(k, t)) && Fewer(k, Unlist(Unevent(k, t), t)) && Fewer(k, Unevent(k, t))
  {
  }

  lemma {:induction false} LiveTickFewer(k: Kernel)
    ensures Fewer(k, LiveTick(k).0)
  {
    TaskRuns.LiveTickIsWakeDue(k);
    WakeDueFewer(Advanced(k), false);
  }

  lemma {:induction false} DrainFewer(k: Kernel)
    ensures Fewer(k, DrainPending(k))
    decreases |k.pending|
  {
    if k.pending != [] {
      ReadyUpFewer(k, k.pending[0]);
      DrainFewer(DrainedOnce(k));
    }
  }

  lemma {:induction false} ReplayFewer(k: Kernel)
    ensures Fewer(k, ReplayTicks(k)) && ReplayTicks(k).tcb == k.tcb
    decreases k.pendedTicks
  {
    if k.pendedTicks > 0 {
      LiveTickFewer(k);
      LiveTickKeeps(k);
      ReplayFewer(ReplayTick(k));
    }
  }

  lemma {:induction false} TickFrame(k: Kernel)
    ensures Tasks.IncrementTick(k).0.tcb == k.tcb && Fewer(k, Tasks.IncrementTick(k).0)
  {
    LiveTickFewer(k);
    LiveTickKeeps(k);
  }

  lemma {:induction false} ResumeFrame(k: Kernel)
    requires k.suspensions > 0
    ensures Tasks.ResumeAll(k).tcb == k.tcb && Fewer(k, Tasks.ResumeAll(k))
  {
    var k1 := k.(suspensions := k.suspensions - 1);
    DrainFewer(k1);
    TaskRuns.DrainFrame(k1);
    ReplayFewer(DrainPending(k1));
  }

  lemma {:induction false} ClockFrame(k: Kernel, c: TaskRuns.Call)
    requires TaskRuns.Allowed(k, c) && (c.IncrementTick? || c.ResumeAll?)
    ensures TaskRuns.Apply(k, c).tcb == k.tcb && Fewer(k, TaskRuns.Apply(k, c))
  {
    if c.IncrementTick? {
      TickFrame(k);
    } else {
      ResumeFrame(k);
    }
  }

  /** The calls that block the calling task on an event list, or change the set of tasks or a priority. */
  predicate Quiet(c: TaskRuns.Call) {
    && !c.Create? && !c.Reap? && !c.PrioritySet? && !c.IncrementHeld? && !c.Inherit? && !c.Disinherit?
  }

  /** The ones that touch a control block at all write item values only. */
  predicate WritesItems(c: TaskRuns.Call) {
    c.Block? || c.PlaceOnEvent? || c.PlaceOnUnordered? || c.PlaceRestricted? || c.ResetEventValue?
      || c.RemoveFromUnordered?
  }

  lemma ItemsWritten(tcb: map<TaskId, Tcb>, t: TaskId, wake: Tick, value: Tick)
    requires t in tcb
    ensures SameRanks(tcb, tcb[t := tcb[t].(wakeValue := wake)])
    ensures SameRanks(tcb, tcb[t := tcb[t].(eventValue := value)])
  {
  }

  lemma BlockOnEventFrame(k: Kernel, forever: bool, ticks: Tick)
    requires k.current in k.tcb
    ensures SameRanks(k.tcb, BlockOnEvent(k, forever, ticks).tcb)
  {
    ItemsWritten(k.tcb, k.current, Plus(k.tick, ticks), 0);
    if !forever {
      SleepFrame(Unlist(k, k.current), Plus(k.tick, ticks));
    }
  }

  lemma SleepFrame(k: Kernel, wake: Tick)
    requires k.current in k.tcb
    ensures Sleep(k, k.current, wake).tcb == k.tcb[k.current := k.tcb[k.current].(wakeValue := wake)]
  {
  }

  lemma {:induction false} WritesItemsFrame(k: Kernel, c: TaskRuns.Call)
    requires TaskRuns.Allowed(k, c) && WritesItems(c)
    ensures SameRanks(k.tcb, TaskRuns.Apply(k, c).tcb)
  {
    if c.Block? {
      BlockOnEventFrame(k, false, c.ticks);
    } else if c.PlaceOnEvent? {
      var e := k.(events := k.events[c.e := InsertByEvent(k.tcb, k.EventList(c.e), k.current)]);
      BlockOnEventFrame(e, c.ticks == MAX_DELAY, c.ticks);
    } else if c.PlaceRestricted? {
      BlockOnEventFrame(k.(events := k.events[c.e := k.EventList(c.e) + [k.current]]), c.forever, c.ticks);
    } else if c.PlaceOnUnordered? {
      PlaceOnUnorderedFrame(k, c.e, c.value, c.ticks);
    } else if c.ResetEventValue? {
      ItemsWritten(k.tcb, k.current, 0, PriorityValue(k.PriorityOf(k.current)));
    } else {
      ItemsWritten(k.tcb, c.t, 0, MarkInUse(c.value));
      assert TaskRuns.Apply(k, c).tcb == SetEventValue(k, c.t, MarkInUse(c.value)).tcb;
    }
  }

  lemma PlaceOnUnorderedFrame(k: Kernel, e: EventId, value: Tick, ticks: Tick)
    requires k.current in k.tcb
    ensures SameRanks(k.tcb, PlaceOnUnordered(k, e, value, ticks).tcb)
  {
    ItemsWritten(k.tcb, k.current, 0, MarkInUse(value));
    var v := SetEventValue(k, k.current, MarkInUse(value));
    BlockOnEventFrame(v.(events := k.events[e := k.EventList(e) + [k.current]]), ticks == MAX_DELAY, ticks);
  }

  lemma {:induction false} QuietFrame(k: Kernel, c: TaskRuns.Call)
    requires TaskRuns.Allowed(k, c) && Quiet(c)
    ensures SameRanks(k.tcb, TaskRuns.Apply(k, c).tcb)
  {
    if c.IncrementTick? || c.ResumeAll? {
      ClockFrame(k, c);
    } else if WritesItems(c) {
      WritesItemsFrame(k, c);
    } else {
      assert TaskRuns.Apply(k, c).tcb == k.tcb;
    }
  }

  lemma {:induction false} BlockingListFrame(k: Kernel, c: TaskRuns.Call, e: EventId)
    requires TaskRuns.Allowed(k, c) && TaskRuns.Blocks(c) && (!c.Block? ==> c.e != e)
    ensures var r := TaskRuns.Apply(k, c);
            && (forall t :: t in r.terminated ==> t in k.terminated)
            && (forall t :: t in r.EventList(e) ==> t in k.EventList(e))
  {
  }

  lemma {:induction false} ListFrame(k: Kernel, c: TaskRuns.Call, e: EventId)
    requires TaskRuns.Allowed(k, c)
    requires c.PlaceOnEvent? || c.PlaceOnUnordered? || c.PlaceRestricted? ==> c.e != e
    ensures var r := TaskRuns.Apply(k, c);
            && (forall t :: t in r.terminated ==> t in k.terminated || (c.Delete? && c.t == t))
            && (forall t :: t in r.EventList(e) ==> t in k.EventList(e))
  {
    if c.IncrementTick? || c.ResumeAll? {
      ClockFrame(k, c);
    } else if TaskRuns.Blocks(c) {
      BlockingListFrame(k, c, e);
    }
  }

  // ---------- the calls that are not quiet ----------

  /** The control blocks after each of the calls that are not quiet. */
  lemma {:induction false} LoudFrame(k: Kernel, c: TaskRuns.Call)
    requires TaskInvariants.Inv(k) && TaskRuns.Allowed(k, c)
    ensures c.Create? ==> TaskRuns.Apply(k, c).tcb == k.tcb[c.t := Tcb(c.p, c.p, 0, 0, PriorityValue(c.p))]
    ensures c.Reap? ==> TaskRuns.Apply(k, c).tcb == k.tcb - {k.terminated[0]}
    ensures c.PrioritySet? ==>
              TaskRuns.Apply(k, c).tcb == if k.tcb[c.t].basePriority == c.p then k.tcb
                                          else k.tcb[c.t := WithPriority(k.tcb[c.t], c.p)]
  {
  }

  lemma IncrementHeldFrame(k: Kernel)
    requires k.current in k.tcb
    ensures var c := k.tcb[k.current];
            IncrementHeld(k) == k.(tcb := k.tcb[k.current := c.(mutexesHeld := c.mutexesHeld + 1)])
  {
  }

  lemma InheritFrame(k: Kernel, h: TaskId)
    requires h in k.tcb
    ensures var p, r := k.PriorityOf(k.current), Inherit(k, h);
            && r.tcb == (if k.tcb[h].priority >= p then k.tcb else k.tcb[h := WithInherited(k.tcb[h], p)])
            && r.current == k.current && r.events == k.events && Fewer(k, r)
  {
  }

  /** What xTaskPriorityDisinherit makes of the control block of the task that gives. */
  function Lowered(c: Tcb): Tcb
    requires c.mutexesHeld > 0
  {
    if c.priority != c.basePriority && c.mutexesHeld == 1 then WithBase(c) else c.(mutexesHeld := c.mutexesHeld - 1)
  }

  lemma DisinheritFrame(k: Kernel, h: TaskId)
    requires h in k.tcb && k.tcb[h].mutexesHeld > 0
    ensures var c, r := k.tcb[h], Disinherit(k, h);
            r.tcb == k.tcb[h := Lowered(c)] && Fewer(k, r)
  {
  }
}
