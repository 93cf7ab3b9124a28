/** Runs of the kernel: every critical section as a step, what each step keeps, and that the
    invariants therefore hold in every reachable state. */
module TaskRuns {
  import opened Ticks
  import opened ListModel
  import opened Tasks
  import opened TaskInvariants

  datatype Call =
    | Create(t: TaskId, p: Priority)
    | Delete(t: TaskId)
    | Recheck                       // the second critical section of vTaskDelete and vTaskSuspend
    | Reap
    | Suspend(t: TaskId)
    | Resume(t: TaskId)
    | ResumeFromISR(t: TaskId)
    | PrioritySet(t: TaskId, p: Priority)
    | IncrementHeld
    | Inherit(t: TaskId)
    | Disinherit
    | Block(ticks: Tick)            // vTaskDelay and vTaskDelayUntil, `ticks` ahead of the tick count
    | PlaceOnEvent(e: EventId, ticks: Tick)
    | PlaceOnUnordered(e: EventId, value: Tick, ticks: Tick)
    | PlaceRestricted(e: EventId, ticks: Tick, forever: bool)
    | ResetEventValue
    | RemoveFromEvent(e: EventId)
    | RemoveFromUnordered(e: EventId, t: TaskId, value: Tick)
    | IncrementTick
    | SuspendAll
    | ResumeAll
    | SwitchContext

  /** What the source asks of its callers (its assertions and the comments above each function). */
  ghost predicate Allowed(k: Kernel, c: Call)
  {
    match c
    case Create(t, _) => t !in k.tcb
    case Delete(t) => t in k.tcb && t !in k.terminated
    case Recheck => true
    case Reap => k.terminated != [] && k.deletedCount > 0 && k.taskCount > 0 && k.terminated[0] != k.current
    case Suspend(t) => t in k.tcb && t !in k.terminated
    case Resume(_) => true
    case ResumeFromISR(_) => true
    case PrioritySet(t, _) => t in k.tcb
    case IncrementHeld => k.current in k.tcb
    case Inherit(t) => t in k.tcb
    case Disinherit => k.current in k.tcb && k.IsReady(k.current) && k.tcb[k.current].mutexesHeld > 0
    case Block(ticks) => k.current in k.tcb && k.IsReady(k.current) && ticks > 0
    case PlaceOnEvent(_, ticks) => k.current in k.tcb && k.IsReady(k.current) && ticks > 0
    case PlaceOnUnordered(_, _, ticks) => k.current in k.tcb && k.IsReady(k.current) && ticks > 0
    case PlaceRestricted(_, ticks, forever) => k.current in k.tcb && k.IsReady(k.current) && (forever || ticks > 0)
    case ResetEventValue => k.current in k.tcb
    case RemoveFromEvent(e) => k.EventList(e) != []
    case RemoveFromUnordered(e, t, _) => t in k.tcb && t in k.EventList(e) && k.suspensions > 0
    case IncrementTick => true
    case SuspendAll => true
    case ResumeAll => k.suspensions > 0
    case SwitchContext => true
  }

  ghost function Apply(k: Kernel, c: Call): Kernel
    requires Allowed(k, c)
  {
    match c
    case Create(t, p) => Tasks.Create(k, t, p)
    case Delete(t) => Tasks.Delete(k, t)
    case Recheck => ResetNextUnblock(k)
    case Reap => Tasks.Reap(k)
    case Suspend(t) => Tasks.Suspend(k, t)
    case Resume(t) => Tasks.Resume(k, t)
    case ResumeFromISR(t) => Tasks.ResumeFromISR(k, t)
    case PrioritySet(t, p) => Tasks.PrioritySet(k, t, p)
    case IncrementHeld => Tasks.IncrementHeld(k)
    case Inherit(t) => Tasks.Inherit(k, t)
    case Disinherit => Tasks.Disinherit(k, k.current)
    case Block(ticks) => Tasks.Block(k, Plus(k.tick, ticks))
    case PlaceOnEvent(e, ticks) => Tasks.PlaceOnEvent(k, e, ticks)
    case PlaceOnUnordered(e, v, ticks) => Tasks.PlaceOnUnordered(k, e, v, ticks)
    case PlaceRestricted(e, ticks, forever) => Tasks.PlaceRestricted(k, e, ticks, forever)
    case ResetEventValue => Tasks.ResetEventValue(k)
    case RemoveFromEvent(e) => Tasks.RemoveFromEvent(k, e)
    case RemoveFromUnordered(_, t, v) => Tasks.RemoveFromUnordered(k, t, v)
    case IncrementTick => Tasks.IncrementTick(k).0
    case SuspendAll => Tasks.SuspendAll(k)
    case ResumeAll => Tasks.ResumeAll(k)
    case SwitchContext => Tasks.SwitchContext(k)
  }

  // ---------- task control ----------

  lemma {:induction false} CreateKeeps(k: Kernel, t: TaskId, p: Priority)
    requires Inv(k) && t !in k.tcb
    ensures Inv(Tasks.Create(k, t, p))
  {
    var c := Tcb(p, p, 0, 0, PriorityValue(p));
    var m := k.(tcb := k.tcb[t := c], taskCount := k.taskCount + 1);
    NewIsLoose(k, t, c);
    PutReady(m, t);
    TimelyRewritten(k.tcb, k.delayed, k.overflow, k.tick, k.nextUnblock, t, c);
  }

  lemma {:induction false} NewIsLoose(k: Kernel, t: TaskId, c: Tcb)
    requires WellFormed(k) && t !in k.tcb
    ensures Loose(k.(tcb := k.tcb[t := c], taskCount := k.taskCount + 1), t)
  {
    var m := k.(tcb := k.tcb[t := c], taskCount := k.taskCount + 1);
    Places(k, t);
    assert t !in Bag(k);
    assert m.tcb.Keys == k.tcb.Keys + {t};
    assert Bag(m) == Bag(k) == multiset(m.tcb.Keys)[t := 0];
    assert Blocked(m) == Blocked(k);
  }

  lemma {:induction false} DeleteKeeps(k: Kernel, t: TaskId)
    requires Inv(k) && t in k.tcb && t !in k.terminated
    ensures Inv(Tasks.Delete(k, t))
  {
    TakeOff(k, t);
    PutTerminated(Unlist(Unevent(k, t), t), t);
    TimelyUnlisted(k.tcb, k.delayed, k.overflow, k.tick, k.nextUnblock, t);
  }

  /** The recomputed unblock time is exact: the least wake value on the delayed list. */
  lemma {:induction false} RecheckKeeps(k: Kernel)
    requires Inv(k)
    ensures Inv(ResetNextUnblock(k))
    ensures var next := ResetNextUnblock(k).nextUnblock;
            && (forall t :: t in k.delayed ==> next <= WakeOf(k.tcb, t))
            && (if k.delayed == [] then next == MAX_DELAY
                else exists t :: t in k.delayed && WakeOf(k.tcb, t) == next)
  {
    WellFormedFrame(k, ResetNextUnblock(k));
    if k.delayed != [] {
      HeadIsLeast(k.tcb, k.delayed);
      assert k.delayed[0] in k.delayed;
    }
  }

  lemma {:induction false} ReapKeepsOrder(k: Kernel)
    requires Inv(k) && Allowed(k, Reap)
    ensures Timely(Tasks.Reap(k))
  {
    var t := k.terminated[0];
    var r := Tasks.Reap(k);
    TimelyUnlisted(k.tcb, k.delayed, k.overflow, k.tick, k.nextUnblock, t);
    ForgetsNoWakeValue(k.tcb, k.delayed, t);
    ForgetsNoWakeValue(k.tcb, k.overflow, t);
  }

  lemma ForgetsNoWakeValue(tcb: map<TaskId, Tcb>, s: seq<TaskId>, t: TaskId)
    ensures WakeValues(tcb - {t}, Without(s, t)) == WakeValues(tcb, Without(s, t))
  {
    var r := Without(s, t);
    forall i | 0 <= i < |r| ensures WakeOf(tcb - {t}, r[i]) == WakeOf(tcb, r[i]) {
      assert r[i] in r;
    }
  }

  /** Forgetting the control block of a task that is linked in nowhere. */
  lemma {:induction false} Forget(tcb: map<TaskId, Tcb>, ready: seq<ReadyList>, t: TaskId)
    requires PlacedByPriority(tcb, ready) && t !in ReadyBag(ready)
    ensures PlacedByPriority(tcb - {t}, ready)
  {
    ReadyBagMember(ready, t);
  }

  lemma {:induction false} ReapKeepsPartition(k: Kernel)
    requires WellFormed(k) && Allowed(k, Reap)
    ensures var r := Tasks.Reap(k);
            Partition(r) && PlacedByPriority(r.tcb, r.ready) && TopBounds(r.topReady, r.ready)
  {
    var t := k.terminated[0];
    var u, r := Unlist(k, t), Tasks.Reap(k);
    UnlistBag(k, t);
    UnlistedReady(k.tcb, k.topReady, k.ready, t);
    assert t !in Bag(u);
    Forget(k.tcb, u.ready, t);
    assert r.tcb.Keys == k.tcb.Keys - {t};
    assert Bag(r) == Bag(u);
    assert multiset(r.tcb.Keys) == multiset(k.tcb.Keys)[t := 0];
  }

  lemma {:induction false} ReapKeeps(k: Kernel)
    requires Inv(k) && Allowed(k, Reap)
    ensures Inv(Tasks.Reap(k))
  {
    var t := k.terminated[0];
    assert t in k.terminated;
    Places(k, t);
    assert Blocked(Tasks.Reap(k)) == Blocked(k);
    ReapKeepsPartition(k);
    ReapCounts(k);
    ReapKeepsOrder(k);
  }

  lemma {:induction false} ReapCounts(k: Kernel)
    requires Partition(k) && k.terminated != []
    ensures |Without(k.terminated, k.terminated[0])| == |k.terminated| - 1
  {
    TerminatedOnce(k);
    WithoutOne(k.terminated, 0);
  }

  lemma {:induction false} OccursTwice(s: seq<TaskId>, i: nat, j: nat)
    requires i < j < |s| && s[i] == s[j]
    ensures multiset(s)[s[i]] >= 2
  {
    assert s == s[..j] + s[j..];
    assert s[i] == s[..j][i] && s[j] == s[j..][0];
  }

  lemma {:induction false} TerminatedOnce(k: Kernel)
    requires Partition(k)
    ensures Distinct(k.terminated)
  {
    forall i, j | 0 <= i < j < |k.terminated|
      ensures k.terminated[i] != k.terminated[j]
    {
      var x := k.terminated[i];
      assert multiset(k.terminated)[x] <= Bag(k)[x] <= 1;
      if x == k.terminated[j] {
        OccursTwice(k.terminated, i, j);
        assert false;
      }
    }
  }

  lemma {:induction false} SuspendKeeps(k: Kernel, t: TaskId)
    requires Inv(k) && t in k.tcb && t !in k.terminated
    ensures Inv(Tasks.Suspend(k, t))
  {
    TakeOff(k, t);
    PutSuspended(Unlist(Unevent(k, t), t), t);
    TimelyUnlisted(k.tcb, k.delayed, k.overflow, k.tick, k.nextUnblock, t);
  }

  /** Moving a task that waits for nothing into its ready list. */
  lemma {:induction false} MoveToReady(k: Kernel, t: TaskId)
    requires Inv(k) && t in k.tcb && t !in k.terminated && !k.OnEvent(t)
    ensures Inv(MakeReady(Unlist(k, t), t)) && MakeReady(Unlist(k, t), t).IsReady(t)
  {
    TakeInHand(k, t);
    PutReady(Unlist(k, t), t);
    TimelyUnlisted(k.tcb, k.delayed, k.overflow, k.tick, k.nextUnblock, t);
  }

  lemma {:induction false} PutPending(k: Kernel, t: TaskId)
    requires Inv(k) && k.suspensions > 0 && k.IsBlocked(t) && !k.OnEvent(t)
    ensures Inv(k.(pending := k.pending + [t]))
  {
    var r := k.(pending := k.pending + [t]);
    PutDistinct(k.pending, |k.pending|, t);
    assert Put(k.pending, |k.pending|, t) == k.pending + [t];
    assert Bag(r) == Bag(k);
    assert Blocked(r) == Blocked(k);
  }

  lemma {:induction false} ResumeKeeps(k: Kernel, t: TaskId)
    requires Inv(k)
    ensures Inv(Tasks.Resume(k, t)) && Inv(Tasks.ResumeFromISR(k, t))
  {
    if IsSuspended(k, t) {
      SuspendedIsLive(k, t);
      MoveToReady(k, t);
      if k.suspensions > 0 {
        PutPending(k, t);
      }
    }
  }

  lemma SuspendedIsLive(k: Kernel, t: TaskId)
    requires Inv(k) && IsSuspended(k, t)
    ensures t in k.tcb && t !in k.terminated && k.IsBlocked(t)
  {
    Places(k, t);
  }

  // ---------- priorities ----------

  /** A task in hand may have its control block rewritten in any way. */
  lemma {:induction false} RewriteLoose(k: Kernel, t: TaskId, c: Tcb)
    requires Loose(k, t)
    ensures Loose(k.(tcb := k.tcb[t := c]), t)
  {
    var r := k.(tcb := k.tcb[t := c]);
    assert r.tcb.Keys == k.tcb.Keys;
    assert Bag(r) == Bag(k);
    assert Blocked(r) == Blocked(k);
    assert t !in Bag(k);
    ReadyBagMember(k.ready, t);
  }

  /** A blocked or terminated task may have its control block rewritten in any way. */
  lemma {:induction false} RewriteUnready(k: Kernel, t: TaskId, c: Tcb)
    requires WellFormed(k) && t in k.tcb && !k.IsReady(t)
    ensures WellFormed(k.(tcb := k.tcb[t := c]))
  {
    var r := k.(tcb := k.tcb[t := c]);
    assert r.tcb.Keys == k.tcb.Keys;
    assert Bag(r) == Bag(k);
    assert Blocked(r) == Blocked(k);
    Places(k, t);
  }

  /** The shape shared by vTaskPrioritySet and vTaskPriorityInherit: rewrite the block, and if the task
      is ready move it to the list of its new priority. */
  lemma {:induction false} ReprioritiseKeeps(k: Kernel, t: TaskId, c: Tcb)
    requires Inv(k) && t in k.tcb && c.wakeValue == k.tcb[t].wakeValue
    ensures Inv(Reprioritised(k, t, c))
  {
    var k' := k.(tcb := k.tcb[t := c]);
    Places(k, t);
    TimelyRewritten(k.tcb, k.delayed, k.overflow, k.tick, k.nextUnblock, t, c);
    if k.IsReady(t) {
      assert !k.OnEvent(t);
      TakeInHand(k, t);
      var u := Unlist(k, t);
      RewriteLoose(u, t, c);
      PutReady(Unlist(k', t), t);
      TimelyUnlisted(k'.tcb, k.delayed, k.overflow, k.tick, k.nextUnblock, t);
    } else {
      RewriteUnready(k, t, c);
    }
  }

  lemma {:induction false} DisinheritKeeps(k: Kernel, t: TaskId)
    requires Inv(k) && t in k.tcb && k.IsReady(t) && k.tcb[t].mutexesHeld > 0
    ensures Inv(Tasks.Disinherit(k, t))
  {
    var c := k.tcb[t];
    if c.priority != c.basePriority && c.mutexesHeld == 1 {
      ReprioritiseKeeps(k, t, WithBase(c));
      DisinheritMoves(k, t);
    } else {
      RewriteKeeps(k, t, c.(mutexesHeld := c.mutexesHeld - 1));
      DisinheritStays(k, t);
    }
  }

  lemma DisinheritStays(k: Kernel, t: TaskId)
    requires t in k.tcb && k.tcb[t].mutexesHeld > 0
    requires k.tcb[t].priority == k.tcb[t].basePriority || k.tcb[t].mutexesHeld != 1
    ensures var c := k.tcb[t]; Tasks.Disinherit(k, t) == k.(tcb := k.tcb[t := c.(mutexesHeld := c.mutexesHeld - 1)])
  {
  }

  lemma DisinheritMoves(k: Kernel, t: TaskId)
    requires t in k.tcb && k.IsReady(t) && k.tcb[t].priority != k.tcb[t].basePriority && k.tcb[t].mutexesHeld == 1
    ensures Tasks.Disinherit(k, t) == Reprioritised(k, t, WithBase(k.tcb[t]))
  {
  }

  lemma {:induction false} RewriteKeeps(k: Kernel, t: TaskId, c: Tcb)
    requires Inv(k) && t in k.tcb && c.priority == k.tcb[t].priority && c.wakeValue == k.tcb[t].wakeValue
    ensures Inv(k.(tcb := k.tcb[t := c]))
  {
    Rewrite(k, t, c);
    TimelyRewritten(k.tcb, k.delayed, k.overflow, k.tick, k.nextUnblock, t, c);
  }

  // ---------- blocking ----------

  /** The calling task leaves its ready list for a delayed or the suspended list. */
  lemma {:induction false} BlockOnEventKeeps(k: Kernel, forever: bool, ticks: Tick)
    requires Inv(k) && k.IsReady(k.current) && (forever || ticks > 0)
    ensures Inv(BlockOnEvent(k, forever, ticks)) && BlockOnEvent(k, forever, ticks).IsBlocked(k.current)
  {
    var t := k.current;
    Places(k, t);
    assert !k.OnEvent(t);
    TakeInHand(k, t);
    TimelyUnlisted(k.tcb, k.delayed, k.overflow, k.tick, k.nextUnblock, t);
    var u := Unlist(k, t);
    if forever {
      PutSuspended(u, t);
    } else {
      PutAsleep(u, t, Plus(k.tick, ticks));
      TimelySleep(u, t, Plus(k.tick, ticks));
    }
  }

  /** The order of the delayed lists asks for a block time above 0 from everyone who does not block for
      ever: a task that blocks for 0 ticks is filed under the tick count itself. */
  lemma {:induction false} BlockKeepsOrderExactlyIf(k: Kernel, ticks: Tick)
    requires Inv(k) && k.IsReady(k.current)
    ensures Timely(BlockOnEvent(k, false, ticks)) <==> ticks > 0
  {
    if ticks > 0 {
      BlockOnEventKeeps(k, false, ticks);
    } else {
      FiledUnderNow(k);
      NotTimely(BlockOnEvent(k, false, 0), k.current);
    }
  }

  lemma NotTimely(r: Kernel, t: TaskId)
    requires t in r.delayed && WakeOf(r.tcb, t) == r.tick
    ensures !Timely(r)
  {
  }

  lemma FiledUnderNow(k: Kernel)
    requires Inv(k) && k.IsReady(k.current)
    ensures var r := BlockOnEvent(k, false, 0); k.current in r.delayed && WakeOf(r.tcb, k.current) == r.tick
  {
    Places(k, k.current);
    var u := Unlist(k, k.current);
    var tcb := u.tcb[k.current := u.tcb[k.current].(wakeValue := k.tick)];
    PutMembers(u.delayed, InsertPos(WakeValues(tcb, u.delayed), k.tick), k.current);
  }

  /** ... and its event item goes into an event list at the same time. */
  lemma {:induction false} PlaceKeeps(k: Kernel, e: EventId, p: nat, forever: bool, ticks: Tick)
    requires Inv(k) && k.IsReady(k.current) && (forever || ticks > 0) && p <= |k.EventList(e)|
    ensures Inv(BlockOnEvent(k.(events := k.events[e := Put(k.EventList(e), p, k.current)]), forever, ticks))
  {
    var t := k.current;
    var r := BlockOnEvent(k, forever, ticks);
    Places(k, t);
    BlockOnEventKeeps(k, forever, ticks);
    PutOnEvent(r, t, e, p);
    PlaceCommutes(k, e, Put(k.EventList(e), p, t), forever, ticks);
  }

  lemma PlaceCommutes(k: Kernel, e: EventId, l: seq<TaskId>, forever: bool, ticks: Tick)
    requires k.current in k.tcb
    ensures BlockOnEvent(k.(events := k.events[e := l]), forever, ticks)
            == BlockOnEvent(k, forever, ticks).(events := k.events[e := l])
  {
  }

  lemma PutLast<T>(s: seq<T>, x: T)
    ensures Put(s, |s|, x) == s + [x]
  {
  }

  lemma {:induction false} PlaceRestrictedKeeps(k: Kernel, e: EventId, ticks: Tick, forever: bool)
    requires Inv(k) && k.IsReady(k.current) && (forever || ticks > 0)
    ensures Inv(Tasks.PlaceRestricted(k, e, ticks, forever))
  {
    PlaceKeeps(k, e, |k.EventList(e)|, forever, ticks);
    PutLast(k.EventList(e), k.current);
  }

  lemma {:induction false} PlaceOnEventKeeps(k: Kernel, e: EventId, ticks: Tick)
    requires Inv(k) && k.IsReady(k.current) && ticks > 0
    ensures Inv(Tasks.PlaceOnEvent(k, e, ticks))
  {
    PlaceKeeps(k, e, InsertPos(EventValues(k.tcb, k.EventList(e)), k.tcb[k.current].eventValue),
               ticks == MAX_DELAY, ticks);
  }

  lemma {:induction false} PlaceOnUnorderedKeeps(k: Kernel, e: EventId, v: Tick, ticks: Tick)
    requires Inv(k) && k.IsReady(k.current) && ticks > 0
    ensures Inv(Tasks.PlaceOnUnordered(k, e, v, ticks))
  {
    var k' := SetEventValue(k, k.current, MarkInUse(v));
    RewriteKeeps(k, k.current, k.tcb[k.current].(eventValue := MarkInUse(v)));
    PlaceRestrictedKeeps(k', e, ticks, ticks == MAX_DELAY);
  }

  // ---------- waking ----------

  lemma {:induction false} NoteYieldKeeps(k: Kernel, yes: bool)
    requires Inv(k)
    ensures Inv(NoteYield(k, yes))
  {
    WellFormedFrame(k, NoteYield(k, yes));
  }

  lemma {:induction false} UneventKeeps(k: Kernel, t: TaskId)
    requires Inv(k)
    ensures Inv(Unevent(k, t)) && !Unevent(k, t).OnEvent(t)
    ensures forall u :: u != t ==> (Unevent(k, t).OnEvent(u) <==> k.OnEvent(u))
  {
    UneventFacts(k, t);
    assert Blocked(Unevent(k, t)) == Blocked(k);
    assert Bag(Unevent(k, t)) == Bag(k);
    OthersOnEvent(k, t);
  }

  lemma OthersOnEvent(k: Kernel, t: TaskId)
    ensures forall u :: u != t ==> (Unevent(k, t).OnEvent(u) <==> k.OnEvent(u))
  {
    var r := Unevent(k, t);
    forall u | u != t ensures r.OnEvent(u) <==> k.OnEvent(u) {
      if e :| e in k.events && u in k.events[e] {
        assert e in r.events.Keys && u in r.events[e];
      }
      if e :| e in r.events && u in r.events[e] {
        assert e in k.events.Keys && u in k.events[e];
      }
    }
  }

  lemma {:induction false} RemoveFromEventKeeps(k: Kernel, e: EventId)
    requires Inv(k) && k.EventList(e) != []
    ensures Inv(Tasks.RemoveFromEvent(k, e))
  {
    var t := k.EventList(e)[0];
    assert t in k.events[e];
    Places(k, t);
    UneventKeeps(k, t);
    var u := Unevent(k, t);
    if k.suspensions == 0 {
      MoveToReady(u, t);
      NoteYieldKeeps(MakeReady(Unlist(u, t), t), k.PriorityOf(t) > k.PriorityOf(k.current));
    } else {
      PutPending(u, t);
      NoteYieldKeeps(u.(pending := u.pending + [t]), k.PriorityOf(t) > k.PriorityOf(k.current));
    }
  }

  lemma {:induction false} ReadyUpKeepsInv(k: Kernel, t: TaskId)
    requires Inv(k) && t in k.tcb && t !in k.terminated
    ensures Inv(ReadyUp(k, t)) && ReadyUp(k, t).IsReady(t)
  {
    UneventKeeps(k, t);
    MoveToReady(Unevent(k, t), t);
  }

  lemma WaiterIsLive(k: Kernel, e: EventId, t: TaskId)
    requires WellFormed(k) && t in k.EventList(e)
    ensures t in k.tcb && t !in k.terminated
  {
    assert t in k.events[e];
    Places(k, t);
  }

  lemma {:induction false} RemoveFromUnorderedKeeps(k: Kernel, e: EventId, t: TaskId, v: Tick)
    requires Inv(k) && t in k.tcb && t in k.EventList(e)
    ensures Inv(Tasks.RemoveFromUnordered(k, t, v))
  {
    WaiterIsLive(k, e, t);
    var k' := SetEventValue(k, t, MarkInUse(v));
    RewriteKeeps(k, t, k.tcb[t].(eventValue := MarkInUse(v)));
    ReadyUpKeepsInv(k', t);
    NoteYieldKeeps(ReadyUp(k', t), k.PriorityOf(t) > k.PriorityOf(k.current));
  }

  // ---------- resuming the scheduler ----------

  /** One round of the loop over xPendingReadyList; only `Settled` does not hold while it runs. */
  lemma {:induction false} DrainStep(k: Kernel)
    requires WellFormed(k) && Timely(k) && k.pending != []
    ensures var r := ReadyUp(k, k.pending[0]);
            WellFormed(r) && Timely(r) && r.pending == Without(k.pending, k.pending[0])
  {
    var t := k.pending[0];
    assert t in k.pending;
    Places(k, t);
    ReadyUpKeeps(k, t);
    TimelyUnlisted(k.tcb, k.delayed, k.overflow, k.tick, k.nextUnblock, t);
  }

  lemma {:induction false} DrainKeeps(k: Kernel)
    requires WellFormed(k) && Timely(k)
    ensures var r := DrainPending(k);
            WellFormed(r) && Timely(r) && r.pending == []
    decreases |k.pending|
  {
    if k.pending != [] {
      DrainStep(k);
      WellFormedFrame(ReadyUp(k, k.pending[0]), DrainedOnce(k));
      DrainKeeps(DrainedOnce(k));
    }
  }

  /** The loop moves list items, notes yields and does nothing else. */
  lemma {:induction false} DrainFrame(k: Kernel)
    ensures var r := DrainPending(k);
            r == k.(ready := r.ready, delayed := r.delayed, overflow := r.overflow, suspended := r.suspended,
                    terminated := r.terminated, pending := r.pending, events := r.events,
                    topReady := r.topReady, yieldPending := r.yieldPending)
    decreases |k.pending|
  {
    if k.pending != [] {
      DrainFrame(DrainedOnce(k));
    }
  }

  lemma {:induction false} ReplayKeeps(k: Kernel)
    requires Inv(k) && k.pending == []
    ensures Inv(ReplayTicks(k)) && ReplayTicks(k).pending == [] && ReplayTicks(k).pendedTicks == 0
    decreases k.pendedTicks
  {
    if k.pendedTicks > 0 {
      LiveTickKeepsInv(k);
      LiveTickKeeps(k);
      WellFormedFrame(LiveTick(k).0, ReplayTick(k));
      ReplayKeeps(ReplayTick(k));
    }
  }

  lemma {:induction false} ResumeAllKeeps(k: Kernel)
    requires Inv(k) && k.suspensions > 0
    ensures Inv(Tasks.ResumeAll(k))
    ensures k.suspensions == 1 ==> Tasks.ResumeAll(k).pending == [] && Tasks.ResumeAll(k).pendedTicks == 0
  {
    var k1 := k.(suspensions := k.suspensions - 1);
    WellFormedFrame(k, k1);
    assert |k.tcb| > 0 by {
      assert k.current in k.tcb.Keys;
    }
    if k1.suspensions == 0 {
      DrainKeeps(k1);
      ReplayKeeps(DrainPending(k1));
    }
  }

  /** Suspending and resuming the scheduler with nothing in between changes nothing. */
  lemma {:induction false} ResumeOfNothing(k: Kernel)
    requires Inv(k) && k.suspensions == 0 && k.pendedTicks == 0
    ensures Tasks.ResumeAll(Tasks.SuspendAll(k)) == k
  {
    assert Tasks.SuspendAll(k).(suspensions := 0) == k;
  }

  /** Reaping touches the termination list only. */
  lemma {:induction false} ReapIsQuiet(k: Kernel)
    requires Inv(k) && k.terminated != [] && k.deletedCount > 0 && k.taskCount > 0
    ensures var r := Tasks.Reap(k);
            && r.delayed == k.delayed && r.overflow == k.overflow && r.suspended == k.suspended
            && r.terminated == k.terminated[1..] && k.terminated[0] !in r.terminated
  {
    var t := k.terminated[0];
    assert t in k.terminated;
    Places(k, t);
    TerminatedOnce(k);
    WithoutOne(k.terminated, 0);
    assert Drop(k.terminated, 0) == k.terminated[1..];
    WithoutAbsent(k.delayed, t);
    WithoutAbsent(k.overflow, t);
    WithoutAbsent(k.suspended, t);
  }

  // ---------- selection ----------

  lemma {:induction false} HighestReadyIsHighest(ready: ReadyLists, p: Priority)
    ensures var h := HighestReady(ready, p);
            && h <= p
            && (forall q :: h < q <= p ==> ready[q].items == [])
            && ((exists q :: 0 <= q <= p && ready[q].items != []) ==> ready[h].items != [])
  {
    if ready[p].items == [] && p > 0 {
      HighestReadyIsHighest(ready, p - 1);
    }
  }

  lemma {:induction false} ReadyBagTurned(r: seq<ReadyList>, p: nat, l: ReadyList)
    requires p < |r| && l.items == r[p].items
    ensures ReadyBag(r[p := l]) == ReadyBag(r)
  {
    if p == 0 {
      assert r[p := l][1..] == r[1..];
    } else {
      assert r[p := l][1..] == r[1..][p - 1 := l];
      assert r[1..][p - 1] == r[p];
      ReadyBagTurned(r[1..], p - 1, l);
    }
  }

  /** Turning the index of a ready list and running the task it lands on. */
  lemma {:induction false} TurnKeeps(k: Kernel, p: Priority)
    requires WellFormed(k) && k.ready[p].items != [] && forall q :: p < q <= k.topReady ==> k.ready[q].items == []
    ensures var l := k.ready[p].Next();
            WellFormed(k.(yieldPending := false, topReady := p, ready := k.ready[p := l], current := l.Indexed()))
  {
    var l := k.ready[p].Next();
    var r := k.(yieldPending := false, topReady := p, ready := k.ready[p := l], current := l.Indexed());
    ReadyBagTurned(k.ready, p, l);
    assert Bag(r) == Bag(k);
    assert Blocked(r) == Blocked(k);
    TurnedInPlace(k.tcb, k.topReady, k.ready, p, l);
  }

  lemma TurnedInPlace(tcb: map<TaskId, Tcb>, top: Priority, ready: ReadyLists, p: Priority, l: ReadyList)
    requires PlacedByPriority(tcb, ready) && TopBounds(top, ready) && forall q :: p < q <= top ==> ready[q].items == []
    requires l.items == ready[p].items && l.index > 0
    ensures PlacedByPriority(tcb, ready[p := l]) && TopBounds(p, ready[p := l]) && l.Indexed() in tcb
  {
    assert l.Indexed() in ready[p].items;
  }

  lemma {:induction false} SwitchContextKeeps(k: Kernel)
    requires Inv(k)
    ensures Inv(Tasks.SwitchContext(k))
  {
    var p := HighestReady(k.ready, k.topReady);
    HighestReadyIsHighest(k.ready, k.topReady);
    if k.suspensions != 0 {
      NoteYieldKeeps(k, true);
    } else if k.ready[p].items != [] {
      TurnKeeps(k, p);
    }
  }

  // ---------- every step, every run ----------

  /** Every critical section of tasks.c keeps the partition, the event items, the counters and the order
      of the delayed lists. */
  lemma {:induction false} StepKeeps(k: Kernel, c: Call)
    requires Inv(k) && Allowed(k, c)
    ensures Inv(Apply(k, c))
  {
    if c.Create? || c.Delete? || c.Recheck? || c.Reap? || c.Suspend? || c.Resume? || c.ResumeFromISR? {
      ControlKeeps(k, c);
    } else if c.PrioritySet? || c.IncrementHeld? || c.Inherit? || c.Disinherit? || c.ResetEventValue? {
      RewritingKeeps(k, c);
    } else if Blocks(c) {
      BlockingKeeps(k, c);
    } else {
      match c
      case RemoveFromEvent(e) => RemoveFromEventKeeps(k, e);
      case RemoveFromUnordered(e, t, v) => RemoveFromUnorderedKeeps(k, e, t, v);
      case IncrementTick => IncrementTickKeeps(k);
      case SuspendAll => WellFormedFrame(k, Tasks.SuspendAll(k));
      case ResumeAll => ResumeAllKeeps(k);
      case SwitchContext => SwitchContextKeeps(k);
    }
  }

  lemma {:induction false} ControlKeeps(k: Kernel, c: Call)
    requires Inv(k) && Allowed(k, c)
    requires c.Create? || c.Delete? || c.Recheck? || c.Reap? || c.Suspend? || c.Resume? || c.ResumeFromISR?
    ensures Inv(Apply(k, c))
  {
    match c
    case Create(t, p) => CreateKeeps(k, t, p);
    case Delete(t) => DeleteKeeps(k, t);
    case Recheck => RecheckKeeps(k);
    case Reap => ReapKeeps(k);
    case Suspend(t) => SuspendKeeps(k, t);
    case Resume(t) => ResumeKeeps(k, t);
    case ResumeFromISR(t) => ResumeKeeps(k, t);
  }

  lemma {:induction false} RewritingKeeps(k: Kernel, c: Call)
    requires Inv(k) && Allowed(k, c)
    requires c.PrioritySet? || c.IncrementHeld? || c.Inherit? || c.Disinherit? || c.ResetEventValue?
    ensures Inv(Apply(k, c))
  {
    match c
    case PrioritySet(t, p) => ReprioritiseKeeps(k, t, WithPriority(k.tcb[t], p));
    case IncrementHeld => RewriteKeeps(k, k.current, Tasks.IncrementHeld(k).tcb[k.current]);
    case Inherit(t) => ReprioritiseKeeps(k, t, WithInherited(k.tcb[t], k.PriorityOf(k.current)));
    case Disinherit => DisinheritKeeps(k, k.current);
    case ResetEventValue => RewriteKeeps(k, k.current, Tasks.ResetEventValue(k).tcb[k.current]);
  }

  lemma {:induction false} BlockingKeeps(k: Kernel, c: Call)
    requires Inv(k) && Allowed(k, c) && Blocks(c)
    ensures Inv(Apply(k, c))
  {
    match c
    case Block(ticks) => BlockOnEventKeeps(k, false, ticks);
    case PlaceOnEvent(e, ticks) => PlaceOnEventKeeps(k, e, ticks);
    case PlaceOnUnordered(e, v, ticks) => PlaceOnUnorderedKeeps(k, e, v, ticks);
    case PlaceRestricted(e, ticks, forever) => PlaceRestrictedKeeps(k, e, ticks, forever);
  }

  lemma {:induction false} IncrementTickKeeps(k: Kernel)
    requires Inv(k)
    ensures Inv(Tasks.IncrementTick(k).0)
  {
    if k.suspensions == 0 {
      LiveTickKeepsInv(k);
    } else {
      WellFormedFrame(k, Tasks.IncrementTick(k).0);
    }
  }

  ghost predicate Legal(k: Kernel, calls: seq<Call>)
    decreases |calls|
  {
    calls == [] || (Allowed(k, calls[0]) && Legal(Apply(k, calls[0]), calls[1..]))
  }

  ghost function After(k: Kernel, calls: seq<Call>): Kernel
    requires Legal(k, calls)
    decreases |calls|
  {
    if calls == [] then k else After(Apply(k, calls[0]), calls[1..])
  }

  lemma {:induction false} RunKeeps(k: Kernel, calls: seq<Call>)
    requires Inv(k) && Legal(k, calls)
    ensures Inv(After(k, calls))
    decreases |calls|
  {
    if calls != [] {
      StepKeeps(k, calls[0]);
      RunKeeps(Apply(k, calls[0]), calls[1..]);
    }
  }

  lemma {:induction false} StartedKeeps(idle: TaskId)
    ensures Inv(Started(idle)) && Started(idle).IsReady(idle)
  {
    UnreadyIsLoose(idle);
    PutReady(Unready(idle), idle);
  }

  /** The started kernel before the idle task is linked into its ready list. */
  function Unready(idle: TaskId): (k: Kernel)
    ensures MakeReady(k, idle) == Started(idle)
  {
    Kernel(map[idle := Tcb(0, 0, 0, 0, PriorityValue(0))], NoneReady(),
           [], [], [], [], [], map[], idle, 0, 0, MAX_DELAY, 0, 0, false, 0, 1, 0)
  }

  lemma {:induction false} UnreadyIsLoose(idle: TaskId)
    ensures Loose(Unready(idle), idle)
  {
    var m := Unready(idle);
    NoneReadyBag(NoneReady());
    assert m.tcb.Keys == {idle};
    assert multiset({idle})[idle := 0] == multiset{};
    assert |m.tcb| == |m.tcb.Keys| == 1;
  }

  lemma {:induction false} NoneReadyBag(r: seq<ReadyList>)
    requires forall i :: 0 <= i < |r| ==> r[i].items == []
    ensures ReadyBag(r) == multiset{}
  {
    if r != [] {
      NoneReadyBag(r[1..]);
    }
  }

  /** Each task that exists is in exactly one of the ready, delayed, overflow, suspended and termination
      lists, and in that one once; no other task is in any. */
  ghost predicate ExactlyOneList(k: Kernel)
  {
    && (forall t :: t in k.tcb <==> k.IsReady(t) || k.IsBlocked(t) || t in k.terminated)
    && (forall t :: k.IsReady(t) ==> !k.IsBlocked(t) && t !in k.terminated)
    && (forall t :: t in k.terminated ==> !k.IsBlocked(t))
    && (forall t :: t in k.delayed ==> t !in k.overflow && t !in k.suspended)
    && (forall t :: t in k.overflow ==> t !in k.suspended)
    && (forall t :: t in k.tcb ==> Bag(k)[t] == 1)
  }

  lemma {:induction false} PartitionMeansExactlyOne(k: Kernel)
    requires WellFormed(k)
    ensures ExactlyOneList(k)
  {
    forall t
      ensures t in k.tcb <==> k.IsReady(t) || k.IsBlocked(t) || t in k.terminated
      ensures k.IsReady(t) ==> !k.IsBlocked(t) && t !in k.terminated
      ensures t in k.terminated ==> !k.IsBlocked(t)
      ensures t in k.delayed ==> t !in k.overflow && t !in k.suspended
      ensures t in k.overflow ==> t !in k.suspended
      ensures t in k.tcb ==> Bag(k)[t] == 1
    {
      Places(k, t);
    }
  }

  /** State-list partition, in every state a run from the started scheduler reaches: besides the exactly
      one list of each task, the list lengths add up to uxCurrentNumberOfTasks, uxTasksDeleted is the
      length of the termination list, a task in ready list p has priority p, and xPendingReadyList is
      empty unless the scheduler is suspended. */
  lemma {:induction false} EveryStateIsPartitioned(idle: TaskId, calls: seq<Call>)
    requires Legal(Started(idle), calls)
    ensures var k := After(Started(idle), calls);
            && ExactlyOneList(k)
            && PlacedByPriority(k.tcb, k.ready)
            && k.taskCount == ReadyLength(k.ready) + |k.delayed| + |k.overflow| + |k.suspended| + |k.terminated|
            && k.deletedCount == |k.terminated|
            && (k.suspensions == 0 ==> k.pending == [])
  {
    StartedKeeps(idle);
    RunKeeps(Started(idle), calls);
    LengthsAddUp(After(Started(idle), calls));
    PartitionMeansExactlyOne(After(Started(idle), calls));
  }

  // ---------- nesting ----------

  /** How many more times a run suspends the scheduler than it resumes it. */
  function Nesting(calls: seq<Call>): int {
    if calls == [] then 0
    else (if calls[0].SuspendAll? then 1 else if calls[0].ResumeAll? then -1 else 0) + Nesting(calls[1..])
  }

  lemma {:induction false} StepNests(k: Kernel, c: Call)
    requires Allowed(k, c)
    ensures Apply(k, c).suspensions == k.suspensions + Nesting([c])
  {
    assert [c][1..] == [];
    if c.IncrementTick? {
      LiveTickKeeps(k);
    } else if c.ResumeAll? {
      ResumeKeepsNesting(k);
    } else if Blocks(c) {
      BlockingKeepsNesting(k, c);
    }
  }

  lemma {:induction false} ResumeKeepsNesting(k: Kernel)
    requires k.suspensions > 0
    ensures Tasks.ResumeAll(k).suspensions == k.suspensions - 1
  {
    var k1 := k.(suspensions := k.suspensions - 1);
    DrainFrame(k1);
    ReplayKeepsNesting(DrainPending(k1));
  }

  lemma {:induction false} ReplayKeepsNesting(k: Kernel)
    ensures ReplayTicks(k).suspensions == k.suspensions
    decreases k.pendedTicks
  {
    if k.pendedTicks > 0 {
      ReplayKeepsNesting(ReplayTick(k));
    }
  }

  lemma BlockingKeepsNesting(k: Kernel, c: Call)
    requires Allowed(k, c) && Blocks(c)
    ensures Apply(k, c).suspensions == k.suspensions
  {
  }

  /** Suspensions nest: in every run the scheduler is suspended exactly while vTaskSuspendAll has been called more often
      than xTaskResumeAll. */
  lemma {:induction false} SuspensionsNest(k: Kernel, calls: seq<Call>)
    requires Legal(k, calls)
    ensures After(k, calls).suspensions == k.suspensions + Nesting(calls)
    decreases |calls|
  {
    if calls != [] {
      StepNests(k, calls[0]);
      assert [calls[0]][1..] == [];
      SuspensionsNest(Apply(k, calls[0]), calls[1..]);
    }
  }

  // ---------- ticks ----------

  /** The number of tick interrupts in a run. */
  function Interrupts(calls: seq<Call>): nat
  {
    if calls == [] then 0 else (if calls[0].IncrementTick? then 1 else 0) + Interrupts(calls[1..])
  }

  /** The tick count together with the ticks still pended. */
  function Clock(k: Kernel): Tick {
    Plus(k.tick, k.pendedTicks)
  }

  lemma {:induction false} ReplayKeepsClock(k: Kernel)
    ensures Clock(ReplayTicks(k)) == Clock(k)
    decreases k.pendedTicks
  {
    if k.pendedTicks > 0 {
      ReplayKeepsClock(ReplayTick(k));
    }
  }

  lemma {:induction false} StepClock(k: Kernel, c: Call)
    requires Allowed(k, c)
    ensures Clock(Apply(k, c)) == if c.IncrementTick? then Plus(Clock(k), 1) else Clock(k)
  {
    if c.IncrementTick? {
      LiveTickKeeps(k);
    } else if c.ResumeAll? {
      ResumeKeepsClock(k);
    } else {
      OtherCallsKeepClock(k, c);
    }
  }

  lemma {:induction false} ResumeKeepsClock(k: Kernel)
    requires k.suspensions > 0
    ensures Clock(Tasks.ResumeAll(k)) == Clock(k)
  {
    var k1 := k.(suspensions := k.suspensions - 1);
    if k1.suspensions == 0 && k1.taskCount > 0 {
      DrainFrame(k1);
      ReplayKeepsClock(DrainPending(k1));
    }
  }

  predicate Blocks(c: Call) {
    c.Block? || c.PlaceOnEvent? || c.PlaceOnUnordered? || c.PlaceRestricted?
  }

  lemma {:induction false} BlockingKeepsClock(k: Kernel, c: Call)
    requires Allowed(k, c) && Blocks(c)
    ensures Apply(k, c).tick == k.tick && Apply(k, c).pendedTicks == k.pendedTicks
            && Apply(k, c).overflows == k.overflows
  {
    if c.PlaceOnEvent? {
      var l := k.(events := k.events[c.e := InsertByEvent(k.tcb, k.EventList(c.e), k.current)]);
      BlockOnEventKeepsClock(l, c.ticks == MAX_DELAY, c.ticks);
    } else if c.PlaceRestricted? {
      var l := k.(events := k.events[c.e := k.EventList(c.e) + [k.current]]);
      BlockOnEventKeepsClock(l, c.forever, c.ticks);
    }
  }

  lemma BlockOnEventKeepsClock(k: Kernel, forever: bool, ticks: Tick)
    requires k.current in k.tcb
    ensures var r := BlockOnEvent(k, forever, ticks);
            r.tick == k.tick && r.pendedTicks == k.pendedTicks && r.overflows == k.overflows && r.events == k.events
  {
  }

  lemma {:induction false} OtherCallsKeepClock(k: Kernel, c: Call)
    requires Allowed(k, c) && !c.IncrementTick? && !c.ResumeAll?
    ensures Apply(k, c).tick == k.tick && Apply(k, c).pendedTicks == k.pendedTicks
            && Apply(k, c).overflows == k.overflows
  {
    if Blocks(c) {
      BlockingKeepsClock(k, c);
    }
  }

  /** A 32-bit counter after n steps. */
  function TickedOn(clock: Tick, n: nat): Tick
    decreases n
  {
    if n == 0 then clock else TickedOn(Plus(clock, 1), n - 1)
  }

  lemma {:induction false} TickedOnIsResidue(clock: Tick, n: nat)
    ensures TickedOn(clock, n) == Residue(clock + n)
    decreases n
  {
    if n > 0 {
      TickedOnIsResidue(Plus(clock, 1), n - 1);
      if clock == MAX_DELAY {
        AtParts(1 + (n - 1) / MOD, (n - 1) % MOD);
      }
    }
  }

  lemma {:induction false} RunClock(k: Kernel, calls: seq<Call>)
    requires Legal(k, calls)
    ensures Clock(After(k, calls)) == TickedOn(Clock(k), Interrupts(calls))
    decreases |calls|
  {
    if calls != [] {
      StepClock(k, calls[0]);
      RunClock(Apply(k, calls[0]), calls[1..]);
    }
  }

  /** No tick is lost or counted twice: xTickCount plus uxPendedTicks counts the tick interrupts modulo
      2^32, in every run, however often the scheduler is suspended in between. */
  lemma {:induction false} TicksAreCounted(k: Kernel, calls: seq<Call>)
    requires Legal(k, calls)
    ensures Clock(After(k, calls)) == Residue(Clock(k) + Interrupts(calls))
  {
    RunClock(k, calls);
    TickedOnIsResidue(Clock(k), Interrupts(calls));
  }

  /** `n` direct calls of xTaskIncrementTick with the scheduler running. */
  function LiveTicks(k: Kernel, n: nat): Kernel
    decreases n
  {
    if n == 0 then k else LiveTicks(LiveTick(k).0, n - 1)
  }

  /** The unblocking loop does not look at the ticks pended, the nesting depth or the yield flag. */
  lemma {:induction false} WakeDueIgnores(k: Kernel, switch: bool, pended: Tick, wanted: bool)
    ensures WakeDue(k.(pendedTicks := pended, yieldPending := wanted), switch).0
            == WakeDue(k, switch).0.(pendedTicks := pended, yieldPending := wanted)
    decreases |k.delayed|
  {
    if k.delayed != [] && WakeOf(k.tcb, k.delayed[0]) <= k.tick {
      var t := k.delayed[0];
      var k' := k.(pendedTicks := pended, yieldPending := wanted);
      assert ReadyUp(k', t) == ReadyUp(k, t).(pendedTicks := pended, yieldPending := wanted);
      WakeDueIgnores(ReadyUp(k, t), switch || k.PriorityOf(t) >= k.PriorityOf(k.current), pended, wanted);
    }
  }

  lemma AdvancedIgnores(k: Kernel, pended: Tick, wanted: bool)
    ensures Advanced(k.(pendedTicks := pended, yieldPending := wanted))
            == Advanced(k).(pendedTicks := pended, yieldPending := wanted)
  {
  }

  lemma LiveTickIsWakeDue(k: Kernel)
    ensures LiveTick(k).0 == if Advanced(k).tick >= Advanced(k).nextUnblock
            then WakeDue(Advanced(k), false).0 else Advanced(k)
  {
  }

  lemma {:induction false} LiveTickIgnores(k: Kernel, pended: Tick, wanted: bool)
    ensures LiveTick(k.(pendedTicks := pended, yieldPending := wanted)).0
            == LiveTick(k).0.(pendedTicks := pended, yieldPending := wanted)
  {
    var k' := k.(pendedTicks := pended, yieldPending := wanted);
    WakeDueIgnores(Advanced(k), false, pended, wanted);
    AdvancedIgnores(k, pended, wanted);
    LiveTickIsWakeDue(k);
    LiveTickIsWakeDue(k');
  }

  ghost predicate ReplaysLive(k: Kernel, m: Kernel)
  {
    ReplayTicks(k) == LiveTicks(m, k.pendedTicks).(pendedTicks := 0, yieldPending := ReplayTicks(k).yieldPending)
  }

  lemma {:induction false} ReplaysLiveIgnores(k: Kernel, m: Kernel)
    requires k == m.(pendedTicks := k.pendedTicks, yieldPending := k.yieldPending)
    requires ReplaysLive(k, k)
    ensures ReplaysLive(k, m)
  {
    LiveTicksIgnore(m, k.pendedTicks, k.pendedTicks, k.yieldPending);
  }

  lemma {:induction false} ReplayIsLiveTicks(k: Kernel)
    ensures ReplaysLive(k, k)
    decreases k.pendedTicks
  {
    if k.pendedTicks > 0 {
      var u := ReplayTick(k);
      ReplayIsLiveTicks(u);
      ReplaysLiveIgnores(u, LiveTick(k).0);
    }
  }

  lemma {:induction false} LiveTicksIgnore(k: Kernel, n: nat, pended: Tick, wanted: bool)
    ensures LiveTicks(k.(pendedTicks := pended, yieldPending := wanted), n)
            == LiveTicks(k, n).(pendedTicks := pended, yieldPending := wanted)
    decreases n
  {
    if n > 0 {
      LiveTickIgnores(k, pended, wanted);
      LiveTicksIgnore(LiveTick(k).0, n - 1, pended, wanted);
    }
  }

  /** `n` tick interrupts while the scheduler is suspended. */
  function PendTicks(k: Kernel, n: nat): (r: Kernel)
    requires k.suspensions > 0
    ensures r.suspensions == k.suspensions
  {
    if n == 0 then k else Tasks.IncrementTick(PendTicks(k, n - 1)).0
  }

  lemma {:induction false} PendTicksCounts(k: Kernel, n: nat)
    requires k.suspensions > 0 && k.pendedTicks + n < MOD
    ensures PendTicks(k, n) == k.(pendedTicks := k.pendedTicks + n)
  {
    if n > 0 {
      PendTicksCounts(k, n - 1);
    }
  }

  /** Deferred ticks equal live ticks: suspending the scheduler, taking n tick interrupts and resuming it
      leaves the same tick count, delayed lists, ready lists and everything else as n ticks taken live,
      except that a wanted context switch is remembered in xYieldPending. */
  lemma {:induction false} DeferredTicksEqualLiveTicks(k: Kernel, n: nat)
    requires Inv(k) && k.suspensions == 0 && k.pendedTicks == 0 && n < MOD
    ensures var r := Tasks.ResumeAll(PendTicks(Tasks.SuspendAll(k), n));
            r == LiveTicks(k, n).(yieldPending := r.yieldPending)
  {
    PendTicksCounts(Tasks.SuspendAll(k), n);
    var k1 := k.(pendedTicks := n);
    assert PendTicks(Tasks.SuspendAll(k), n).(suspensions := 0) == k1;
    assert k.taskCount > 0 by {
      assert k.current in k.tcb.Keys;
    }
    assert DrainPending(k1) == k1;
    ReplayIsLiveTicks(k1);
    LiveTicksIgnore(k, n, n, k.yieldPending);
    LiveTicksPended(k, n);
    assert k.(pendedTicks := n, yieldPending := k.yieldPending) == k1;
  }

  lemma {:induction false} LiveTicksPended(k: Kernel, n: nat)
    ensures LiveTicks(k, n).pendedTicks == k.pendedTicks
    decreases n
  {
    if n > 0 {
      LiveTickKeeps(k);
      LiveTicksPended(LiveTick(k).0, n - 1);
    }
  }
}
