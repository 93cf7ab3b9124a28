/** Preemption: the running task has the highest priority of the ready ones, or a context switch has been asked for. */
module Preemption {
  import opened Ticks
  import opened ListModel
  import opened Tasks
  import opened TaskInvariants
  import opened TaskRuns
  import opened TaskFrames
  import opened TaskSelection
  import opened TaskStates

  // ---------- which calls ask for a context switch ----------

  /** Whether vTaskPrioritySet asks, for a task of base priority `base`. */
  predicate PrioritySetAsks(k: Kernel, t: TaskId, base: Priority, p: Priority) {
    || (p > base && t != k.current && p >= k.PriorityOf(k.current))
    || (p < base && t == k.current)
  }

  /** Whether the source yields at the end of the call, or tells its caller to.  What the two functions that take a task
      off an event list return is not counted: they note the yield themselves, for callers that do not look. */
  ghost predicate Asks(k: Kernel, c: Call)
    requires Allowed(k, c)
  {
    match c
    case Create(_, p) => p > k.PriorityOf(k.current)
    case Delete(t) => t == k.current
    case Suspend(t) => t == k.current
    case Resume(t) => t != k.current && IsSuspended(k, t) && k.PriorityOf(t) >= k.PriorityOf(k.current)
    case ResumeFromISR(t) =>
      k.suspensions == 0 && IsSuspended(k, t) && k.PriorityOf(t) >= k.PriorityOf(k.current)
    case PrioritySet(t, p) => PrioritySetAsks(k, t, k.tcb[t].basePriority, p)
    case Disinherit =>
      var b := k.tcb[k.current]; b.priority != b.basePriority && b.mutexesHeld == 1
    case IncrementTick => Tasks.IncrementTick(k).1
    case ResumeAll => k.suspensions == 1 && Tasks.ResumeAll(k).yieldPending
    case _ => Blocks(c)
  }

  /** The running task has the highest priority of the ready ones, or a switch is pending. */
  ghost predicate Rightful(k: Kernel) {
    Highest(k, k.current) || k.yieldPending
  }

  // ---------- nobody above the running task ----------

  ghost predicate NoneAbove(tcb: map<TaskId, Tcb>, ready: set<TaskId>, p: Priority) {
    forall x :: x in ready && x in tcb ==> tcb[x].priority <= p
  }

  lemma {:induction false} HighestByCensus(k: Kernel, t: TaskId)
    requires WellFormed(k)
    ensures Highest(k, t) <==> NoneAbove(k.tcb, CensusOf(k).Ready(), k.PriorityOf(t))
  {
    ReadyMeansReady(k);
    forall x ensures x in k.tcb && x in k.ready[k.tcb[x].priority].items <==> x in k.tcb && x in CensusOf(k).Ready() {
    }
  }

  /** Nobody but `t` has become ready or changed priority, and `t` is not above the running task. */
  lemma {:induction false} StaysHighest(k: Kernel, r: Kernel, t: TaskId)
    requires WellFormed(k) && WellFormed(r) && r.current == k.current && Highest(k, k.current)
    requires forall x :: x in CensusOf(r).Ready() && x != t ==> x in CensusOf(k).Ready()
    requires forall x :: x in r.tcb && x in k.tcb && x != t ==> r.tcb[x].priority == k.tcb[x].priority
    requires t in CensusOf(r).Ready() ==> r.PriorityOf(t) <= r.PriorityOf(r.current)
    requires t == k.current ==> r.PriorityOf(t) >= k.PriorityOf(t)
    ensures Highest(r, r.current)
  {
    HighestByCensus(k, k.current);
    HighestByCensus(r, r.current);
  }

  // ---------- one call ----------

  predicate TakesTime(c: Call) {
    c.IncrementTick? || c.ResumeAll? || c.SwitchContext?
  }

  /** The one task that a call may make ready or give another priority. */
  function Mover(k: Kernel, c: Call): TaskId
    requires c.RemoveFromEvent? ==> k.EventList(c.e) != []
  {
    match c
    case Create(t, _) => t
    case Resume(t) => t
    case ResumeFromISR(t) => t
    case PrioritySet(t, _) => t
    case Inherit(t) => t
    case RemoveFromEvent(e) => k.EventList(e)[0]
    case RemoveFromUnordered(_, t, _) => t
    case _ => k.current
  }

  lemma {:induction false} OnlyMoverReadied(k: Kernel, c: Call)
    requires Inv(k) && Allowed(k, c) && !TakesTime(c)
    ensures forall x :: x in CensusOf(Apply(k, c)).Ready() && x != Mover(k, c) ==> x in CensusOf(k).Ready()
  {
    StepMoves(k, c);
    MovedReady(CensusOf(k), k, c);
  }

  lemma {:induction false} MovedReady(n: Census, k: Kernel, c: Call)
    requires Allowed(k, c) && !TakesTime(c)
    ensures forall x :: x in Moved(n, k, c).Ready() && x != Mover(k, c) ==> x in n.Ready()
  {
  }

  lemma {:induction false} OnlyMoverRanked(k: Kernel, c: Call)
    requires Inv(k) && Allowed(k, c) && !TakesTime(c)
    ensures forall x :: x in Apply(k, c).tcb && x in k.tcb && x != Mover(k, c) ==>
              Apply(k, c).tcb[x].priority == k.tcb[x].priority
  {
    if Quiet(c) {
      QuietFrame(k, c);
    } else if c.Inherit? {
      InheritFrame(k, c.t);
    } else if c.Disinherit? {
      DisinheritFrame(k, k.current);
    } else if c.IncrementHeld? {
      IncrementHeldFrame(k);
    } else {
      LoudFrame(k, c);
    }
  }

  lemma {:induction false} KeepsCurrent(k: Kernel, c: Call)
    requires Allowed(k, c) && !TakesTime(c) && !Blocks(c)
    ensures Apply(k, c).current == k.current
    ensures k.yieldPending ==> Apply(k, c).yieldPending
  {
  }

  lemma {:induction false} NoReadyAbove(k: Kernel, x: TaskId)
    requires WellFormed(k) && Highest(k, k.current) && x in CensusOf(k).Ready()
    ensures k.PriorityOf(x) <= k.PriorityOf(k.current)
  {
    HighestByCensus(k, k.current);
  }

  lemma {:induction false} QuietMoverStaysBelow(k: Kernel, c: Call)
    requires Inv(k) && Allowed(k, c) && !TakesTime(c) && !Blocks(c) && !Asks(k, c) && Highest(k, k.current)
    requires Quiet(c)
    ensures var r, t := Apply(k, c), Mover(k, c);
            r.yieldPending || (t in CensusOf(r).Ready() ==> k.PriorityOf(t) <= k.PriorityOf(k.current))
  {
    var r, t := Apply(k, c), Mover(k, c);
    if t in CensusOf(r).Ready() {
      if t in CensusOf(k).Ready() {
        NoReadyAbove(k, t);
      } else {
        StepMoves(k, c);
        ReadiedBelow(CensusOf(k), k, c);
      }
    }
  }

  /** The ways to become ready. */
  lemma {:induction false} ReadiedBelow(n: Census, k: Kernel, c: Call)
    requires Allowed(k, c) && Quiet(c) && !TakesTime(c) && !Blocks(c) && !Asks(k, c) && n == CensusOf(k)
    requires Mover(k, c) in Moved(n, k, c).Ready() && Mover(k, c) !in n.Ready()
    requires k.current in k.tcb
    ensures Apply(k, c).yieldPending || k.PriorityOf(Mover(k, c)) <= k.PriorityOf(k.current)
  {
  }

  /** The task that a call moves is no higher than the running one then, and the running one no lower than before. */
  ghost predicate StaysBelow(k: Kernel, r: Kernel, t: TaskId) {
    && (t in CensusOf(r).Ready() ==> r.PriorityOf(t) <= r.PriorityOf(k.current))
    && (t == k.current ==> r.PriorityOf(t) >= k.PriorityOf(t))
  }

  lemma {:induction false} PrioritySetStaysBelow(k: Kernel, t: TaskId, p: Priority)
    requires Inv(k) && t in k.tcb && !PrioritySetAsks(k, t, k.tcb[t].basePriority, p) && Highest(k, k.current)
    ensures StaysBelow(k, Tasks.PrioritySet(k, t, p), t)
  {
    LoudFrame(k, TaskRuns.PrioritySet(t, p));
    RewritingMoves(k, TaskRuns.PrioritySet(t, p));
    if t in CensusOf(k).Ready() {
      NoReadyAbove(k, t);
    }
  }

  lemma {:induction false} InheritStaysBelow(k: Kernel, t: TaskId)
    requires Inv(k) && t in k.tcb && Highest(k, k.current)
    ensures StaysBelow(k, Tasks.Inherit(k, t), t)
  {
    InheritFrame(k, t);
    RewritingMoves(k, TaskRuns.Inherit(t));
    if t in CensusOf(k).Ready() {
      NoReadyAbove(k, t);
    }
  }

  lemma {:induction false} OwnMoverStaysBelow(k: Kernel, c: Call)
    requires Inv(k) && Allowed(k, c) && !Asks(k, c) && (c.Create? || c.Reap? || c.Disinherit? || c.IncrementHeld?)
    ensures StaysBelow(k, Apply(k, c), Mover(k, c))
  {
    if c.Disinherit? {
      DisinheritFrame(k, k.current);
    } else if c.IncrementHeld? {
      IncrementHeldFrame(k);
    } else {
      LoudFrame(k, c);
    }
  }

  /** A call that does not ask leaves the task it moves no higher than the running one, or has noted a yield. */
  lemma {:induction false} MoverStaysBelow(k: Kernel, c: Call)
    requires Inv(k) && Allowed(k, c) && !TakesTime(c) && !Blocks(c) && !Asks(k, c) && Highest(k, k.current)
    ensures Apply(k, c).yieldPending || StaysBelow(k, Apply(k, c), Mover(k, c))
  {
    if Quiet(c) {
      QuietFrame(k, c);
      QuietMoverStaysBelow(k, c);
    } else if c.Inherit? {
      InheritStaysBelow(k, c.t);
    } else if c.PrioritySet? {
      PrioritySetStaysBelow(k, c.t, c.p);
    } else {
      OwnMoverStaysBelow(k, c);
    }
  }

  lemma {:induction false} CallKeepsRightful(k: Kernel, c: Call)
    requires Inv(k) && Allowed(k, c) && !TakesTime(c) && !Asks(k, c) && Rightful(k)
    ensures Rightful(Apply(k, c))
  {
    KeepsCurrent(k, c);
    if !k.yieldPending {
      MoverStaysBelow(k, c);
      if !Apply(k, c).yieldPending {
        MoverAlone(k, c);
      }
    }
  }

  lemma {:induction false} MoverAlone(k: Kernel, c: Call)
    requires Inv(k) && Allowed(k, c) && !TakesTime(c) && !Blocks(c) && Highest(k, k.current)
    requires StaysBelow(k, Apply(k, c), Mover(k, c))
    ensures Highest(Apply(k, c), Apply(k, c).current)
  {
    KeepsCurrent(k, c);
    StepKeeps(k, c);
    OnlyMoverReadied(k, c);
    OnlyMoverRanked(k, c);
    StaysHighest(k, Apply(k, c), Mover(k, c));
  }

  // ---------- ticks that are made up for ----------

  /** A tick readies a task at least as urgent as the running one, or finds the running one to share its priority. */
  ghost predicate TickCalls(k: Kernel) {
    || (exists t :: Calls(Advanced(k), t))
    || |LiveTick(k).0.ready[LiveTick(k).0.PriorityOf(k.current)].items| > 1
  }

  /** Such a tick is among the next n. */
  ghost predicate SomeTickCalls(k: Kernel, n: nat)
    decreases n
  {
    n > 0 && (TickCalls(k) || SomeTickCalls(LiveTick(k).0, n - 1))
  }

  /** Neither of them looks at the yield flag or the ticks pended. */
  lemma TickCallsIgnores(k: Kernel, pended: Tick, wanted: bool)
    ensures TickCalls(k.(pendedTicks := pended, yieldPending := wanted)) <==> TickCalls(k)
  {
    var k' := k.(pendedTicks := pended, yieldPending := wanted);
    AdvancedIgnores(k, pended, wanted);
    LiveTickIgnores(k, pended, wanted);
    forall t ensures Calls(Advanced(k'), t) <==> Calls(Advanced(k), t) {
    }
  }

  lemma {:induction false} SomeTickCallsIgnores(k: Kernel, n: nat, pended: Tick, wanted: bool)
    ensures SomeTickCalls(k.(pendedTicks := pended, yieldPending := wanted), n) <==> SomeTickCalls(k, n)
    decreases n
  {
    if n > 0 {
      TickCallsIgnores(k, pended, wanted);
      LiveTickIgnores(k, pended, wanted);
      SomeTickCallsIgnores(LiveTick(k).0, n - 1, pended, wanted);
    }
  }

  /** Replaying pended ticks notes a yield exactly if one was noted before or one of the ticks calls for it. */
  lemma {:induction false} ReplayYieldsExactlyIf(k: Kernel)
    requires Inv(k) && k.suspensions == 0
    ensures ReplayTicks(k).yieldPending <==> k.yieldPending || SomeTickCalls(k, k.pendedTicks)
    decreases k.pendedTicks
  {
    if k.pendedTicks > 0 {
      var u := ReplayTick(k);
      ReplayTickKeeps(k);
      ReplayTickFlag(k);
      ReplayYieldsExactlyIf(u);
      SomeTickCallsIgnores(LiveTick(k).0, u.pendedTicks, u.pendedTicks, u.yieldPending);
    }
  }

  lemma {:induction false} ReplayTickFlag(k: Kernel)
    requires Inv(k) && k.suspensions == 0 && k.pendedTicks > 0
    ensures var u := ReplayTick(k);
            && u == LiveTick(k).0.(pendedTicks := u.pendedTicks, yieldPending := u.yieldPending)
            && u.pendedTicks == k.pendedTicks - 1 && u.suspensions == 0
            && (u.yieldPending <==> k.yieldPending || TickCalls(k))
  {
    TickPreempts(k);
    LiveTickKeeps(k);
  }

  /** Draining xPendingReadyList notes one exactly if a task on it is at least as urgent as the running one. */
  lemma {:induction false} DrainYieldsExactlyIf(k: Kernel)
    ensures DrainPending(k).yieldPending
            <==> k.yieldPending || exists t :: t in k.pending && k.PriorityOf(t) >= k.PriorityOf(k.current)
    decreases |k.pending|
  {
    if k.pending != [] {
      var h, r := k.pending[0], DrainedOnce(k);
      DrainYieldsExactlyIf(r);
      assert h in k.pending;
      assert forall t :: t in r.pending <==> t in k.pending && t != h;
      assert r.tcb == k.tcb && r.current == k.current;
    }
  }

  /** xTaskResumeAll yields, and says so, exactly if: a yield was pending, or it readies a task held back that is at
      least as urgent as the running one, or one of the ticks it makes up for calls for a switch. */
  lemma {:induction false} ResumeYieldsExactlyIf(k: Kernel)
    requires Inv(k) && k.suspensions == 1
    ensures Tasks.ResumeAll(k).yieldPending <==>
              || k.yieldPending
              || (exists t :: t in k.pending && k.PriorityOf(t) >= k.PriorityOf(k.current))
              || SomeTickCalls(DrainPending(k.(suspensions := 0)), k.pendedTicks)
  {
    var k1 := k.(suspensions := 0);
    ResumeShape(k);
    WellFormedFrame(k, k1);
    DrainKeeps(k1);
    DrainFrame(k1);
    DrainYieldsExactlyIf(k1);
    ReplayYieldsExactlyIf(DrainPending(k1));
  }

  lemma {:induction false} DrainKeepsRightful(k: Kernel)
    requires WellFormed(k) && Timely(k) && Rightful(k)
    ensures Rightful(DrainPending(k))
    decreases |k.pending|
  {
    if k.pending != [] {
      DrainOnceMoves(k);
      DrainOnceKeepsRightful(k);
      DrainKeepsRightful(DrainedOnce(k));
    }
  }

  lemma {:induction false} DrainOnceKeepsRightful(k: Kernel)
    requires WellFormed(k) && Timely(k) && k.pending != [] && Rightful(k)
    ensures Rightful(DrainedOnce(k))
  {
    var h, r := k.pending[0], DrainedOnce(k);
    if !r.yieldPending {
      DrainOnceMoves(k);
      StaysHighest(k, r, h);
    }
  }

  lemma {:induction false} ReplayKeepsRightful(k: Kernel)
    requires Inv(k) && k.suspensions == 0 && Rightful(k)
    ensures Rightful(ReplayTicks(k))
    decreases k.pendedTicks
  {
    if k.pendedTicks > 0 {
      TickPreempts(k);
      LiveTickKeeps(k);
      ReplayTickKeeps(k);
      ReplayKeepsRightful(ReplayTick(k));
    }
  }

  /** After xTaskResumeAll, the running task has the highest priority or a yield has been noted. */
  lemma {:induction false} ResumeKeepsRightful(k: Kernel)
    requires Inv(k) && k.suspensions > 0 && Rightful(k)
    ensures Rightful(Tasks.ResumeAll(k))
  {
    var k1 := k.(suspensions := k.suspensions - 1);
    ResumeShape(k);
    WellFormedFrame(k, k1);
    if k.suspensions == 1 {
      DrainKeepsRightful(k1);
      DrainKeeps(k1);
      DrainFrame(k1);
      ReplayKeepsRightful(DrainPending(k1));
    }
  }

  // ---------- every call ----------

  /** vTaskSwitchContext selects a task of the highest priority, or notes the yield while the scheduler is suspended. */
  lemma {:induction false} SwitchIsRightful(k: Kernel)
    requires Inv(k)
    ensures Rightful(Tasks.SwitchContext(k))
  {
    if k.suspensions == 0 {
      if some :| some in k.tcb && k.IsReady(some) {
        SwitchContextSelectsHighest(k, some);
      } else {
        NobodyToSelect(k);
      }
    }
  }

  lemma {:induction false} NobodyToSelect(k: Kernel)
    requires Inv(k) && k.suspensions == 0 && forall t :: t in k.tcb ==> !k.IsReady(t)
    ensures Tasks.SwitchContext(k) == k && Highest(k, k.current)
  {
    HighestReadyIsHighest(k.ready, k.topReady);
    var p := HighestReady(k.ready, k.topReady);
    if k.ready[p].items != [] {
      assert k.ready[p].items[0] in k.ready[p].items;
      assert k.IsReady(k.ready[p].items[0]);
    }
  }

  /** Every call that asks for no switch leaves the running task the highest, or notes a yield. */
  lemma {:induction false} StepKeepsRightful(k: Kernel, c: Call)
    requires Inv(k) && Allowed(k, c) && !Asks(k, c) && Rightful(k)
    ensures Rightful(Apply(k, c))
  {
    if c.SwitchContext? {
      SwitchIsRightful(k);
    } else if c.ResumeAll? {
      ResumeKeepsRightful(k);
    } else if c.IncrementTick? {
      TickKeepsRightful(k);
    } else {
      CallKeepsRightful(k, c);
    }
  }

  lemma {:induction false} TickKeepsRightful(k: Kernel)
    requires Inv(k) && Rightful(k)
    ensures Tasks.IncrementTick(k).1 || Rightful(Tasks.IncrementTick(k).0)
  {
    if k.suspensions == 0 {
      TickPreempts(k);
      LiveTickKeeps(k);
    }
  }

  // ---------- runs ----------

  /** Each call that asks for a switch is followed by one, unless it is the last. */
  ghost predicate Honoured(k: Kernel, calls: seq<Call>)
    requires Legal(k, calls)
    decreases |calls|
  {
    calls == [] ||
      ((Asks(k, calls[0]) && |calls| > 1 ==> calls[1].SwitchContext?) && Honoured(Apply(k, calls[0]), calls[1..]))
  }

  ghost predicate EndsAsking(k: Kernel, calls: seq<Call>)
    requires Legal(k, calls)
    decreases |calls|
  {
    calls != [] && if |calls| == 1 then Asks(k, calls[0]) else EndsAsking(Apply(k, calls[0]), calls[1..])
  }

  lemma {:induction false} RunKeepsRightful(k: Kernel, calls: seq<Call>)
    requires Inv(k) && Legal(k, calls) && Honoured(k, calls)
    requires Rightful(k) || (calls != [] && calls[0].SwitchContext?)
    ensures Rightful(After(k, calls)) || EndsAsking(k, calls)
    decreases |calls|
  {
    if calls != [] {
      var c := calls[0];
      StepKeeps(k, c);
      if c.SwitchContext? {
        SwitchIsRightful(k);
      } else if !Asks(k, c) {
        StepKeepsRightful(k, c);
      }
      if Rightful(Apply(k, c)) || |calls| > 1 {
        RunKeepsRightful(Apply(k, c), calls[1..]);
      }
    }
  }

  /** Nobody is passed over.  In every run in which the context switches that calls ask for are made: the running task
      has the highest priority of the ready tasks, or a yield is pending, or the last call has just asked for one. */
  lemma {:induction false} NobodyIsPassedOver(idle: TaskId, calls: seq<Call>)
    requires Legal(Started(idle), calls) && Honoured(Started(idle), calls)
    ensures var k := After(Started(idle), calls);
            Highest(k, k.current) || k.yieldPending || EndsAsking(Started(idle), calls)
  {
    StartedKeeps(idle);
    StartedIsRightful(idle);
    RunKeepsRightful(Started(idle), calls);
  }

  lemma StartedIsRightful(idle: TaskId)
    ensures Rightful(Started(idle))
  {
  }

  /** And a yield that is pending is asked for by the next tick, or by the call that resumes the scheduler. */
  lemma {:induction false} PendingYieldIsAsked(k: Kernel)
    requires Inv(k) && k.yieldPending
    ensures Asks(k, IncrementTick) && (k.suspensions == 1 ==> Asks(k, ResumeAll))
  {
    if k.suspensions == 0 {
      TickPreempts(k);
    } else if k.suspensions == 1 {
      ResumeYieldsExactlyIf(k);
    }
  }
}
