/** What vTaskDelay promises: a task that delays is back in its ready list when its time has come, and no earlier,
    in every run in which nobody deletes or suspends it. */
module Delays {
  import opened Ticks
  import opened ListModel
  import opened Tasks
  import opened TaskInvariants
  import opened TaskRuns
  import opened TaskTime
  import opened TaskSelection
  import opened TaskFrames
  import WakeOrders

  // ---------- tasks that wait for time alone ----------

  /** In existence, with the event item linked in nowhere, and on no list but a ready or a delayed one. */
  ghost predicate Untied(k: Kernel, t: TaskId) {
    t in k.tcb && t !in k.suspended && t !in k.terminated && t !in k.pending && forall e :: t !in k.EventList(e)
  }

  /** Nobody has joined the suspended list or xPendingReadyList. */
  ghost predicate Shorter(k: Kernel, r: Kernel) {
    && r.tcb.Keys == k.tcb.Keys
    && (forall t :: t in r.suspended ==> t in k.suspended)
    && (forall t :: t in r.pending ==> t in k.pending)
  }

  lemma {:induction false} WakeDueShorter(k: Kernel, switch: bool)
    ensures Shorter(k, WakeDue(k, switch).0)
    decreases |k.delayed|
  {
    if k.delayed != [] && WakeOf(k.tcb, k.delayed[0]) <= k.tick {
      WakeDueShorter(ReadyUp(k, k.delayed[0]), switch || k.PriorityOf(k.delayed[0]) >= k.PriorityOf(k.current));
    }
  }

  lemma {:induction false} LiveTickShorter(k: Kernel)
    ensures Shorter(k, LiveTick(k).0)
  {
    LiveTickIsWakeDue(k);
    WakeDueShorter(Advanced(k), false);
  }

  lemma {:induction false} DrainShorter(k: Kernel)
    ensures Shorter(k, DrainPending(k))
    decreases |k.pending|
  {
    if k.pending != [] {
      DrainShorter(DrainedOnce(k));
    }
  }

  lemma {:induction false} ReplayShorter(k: Kernel)
    ensures Shorter(k, ReplayTicks(k))
    decreases k.pendedTicks
  {
    if k.pendedTicks > 0 {
      LiveTickShorter(k);
      ReplayShorter(ReplayTick(k));
    }
  }

  lemma {:induction false} ResumeShorter(k: Kernel)
    requires k.suspensions > 0
    ensures Shorter(k, Tasks.ResumeAll(k))
  {
    var k1 := k.(suspensions := k.suspensions - 1);
    DrainShorter(k1);
    ReplayShorter(DrainPending(k1));
  }

  lemma SleepLists(k: Kernel, t: TaskId, wake: Tick)
    requires t in k.tcb
    ensures var r := Sleep(k, t, wake);
            && r.tcb.Keys == k.tcb.Keys && r.pending == k.pending && r.events == k.events
            && r.suspended == k.suspended && r.terminated == k.terminated
  {
  }

  lemma {:induction false} BlockOnEventLists(k: Kernel, forever: bool, ticks: Tick)
    requires k.current in k.tcb
    ensures var r := BlockOnEvent(k, forever, ticks);
            && r.tcb.Keys == k.tcb.Keys && r.pending == k.pending && r.events == k.events
            && (forall t :: t in r.suspended ==> t in k.suspended || (forever && t == k.current))
            && (forall t :: t in r.terminated ==> t in k.terminated)
  {
    if !forever {
      SleepLists(Unlist(k, k.current), k.current, Plus(k.tick, ticks));
    }
  }

  lemma {:induction false} BlockingLists(k: Kernel, c: Call)
    requires Allowed(k, c) && Blocks(c)
    ensures var r := Apply(k, c);
            && r.tcb.Keys == k.tcb.Keys && r.pending == k.pending
            && (forall t :: t in r.suspended ==> t in k.suspended || t == k.current)
  {
    if c.Block? {
      BlockOnEventLists(k, false, c.ticks);
    } else if c.PlaceOnEvent? {
      BlockOnEventLists(k.(events := k.events[c.e := InsertByEvent(k.tcb, k.EventList(c.e), k.current)]),
                        c.ticks == MAX_DELAY, c.ticks);
    } else if c.PlaceRestricted? {
      BlockOnEventLists(k.(events := k.events[c.e := k.EventList(c.e) + [k.current]]), c.forever, c.ticks);
    } else {
      var v := SetEventValue(k, k.current, MarkInUse(c.value));
      BlockOnEventLists(v.(events := k.events[c.e := k.EventList(c.e) + [k.current]]), c.ticks == MAX_DELAY, c.ticks);
    }
  }

  /** The suspended list and xPendingReadyList after the calls that do not block. */
  lemma {:induction false} OtherLists(k: Kernel, c: Call, t: TaskId)
    requires Allowed(k, c) && Spares(k, c, t) && Untied(k, t) && !Blocks(c)
    ensures t in Apply(k, c).tcb && t !in Apply(k, c).suspended && t !in Apply(k, c).pending
  {
    if c.IncrementTick? {
      LiveTickShorter(k);
    } else if c.ResumeAll? {
      ResumeShorter(k);
    } else if c.RemoveFromEvent? {
      assert k.EventList(c.e)[0] in k.EventList(c.e);
    } else if c.Reap? {
      assert k.terminated[0] in k.terminated;
    }
  }

  lemma {:induction false} StillOffEvent(k: Kernel, c: Call, t: TaskId, e: EventId)
    requires Allowed(k, c) && Spares(k, c, t) && t !in k.EventList(e)
    ensures t !in Apply(k, c).EventList(e)
  {
    if WakeOrders.PlacesOn(c, e) {
      JoinsEvent(k, c, e);
    } else {
      ListFrame(k, c, e);
    }
  }

  lemma {:induction false} JoinsEvent(k: Kernel, c: Call, e: EventId)
    requires Allowed(k, c) && WakeOrders.PlacesOn(c, e)
    ensures forall t :: t in Apply(k, c).EventList(e) ==> t in k.EventList(e) || t == k.current
  {
    PutMembers(k.EventList(e), InsertPos(EventValues(k.tcb, k.EventList(e)), k.tcb[k.current].eventValue), k.current);
  }

  /** A task that waits for time alone begins to wait for something else by its own calls only. */
  lemma {:induction false} StepUnties(k: Kernel, c: Call, t: TaskId)
    requires Allowed(k, c) && Spares(k, c, t) && Untied(k, t)
    ensures Untied(Apply(k, c), t)
  {
    forall e ensures t !in Apply(k, c).EventList(e) {
      StillOffEvent(k, c, t, e);
    }
    NotTerminated(k, c, t);
    if Blocks(c) {
      BlockingLists(k, c);
    } else {
      OtherLists(k, c, t);
    }
  }

  lemma {:induction false} NotTerminated(k: Kernel, c: Call, t: TaskId)
    requires Allowed(k, c) && Spares(k, c, t) && t !in k.terminated
    ensures t !in Apply(k, c).terminated
  {
    ListFrame(k, c, if WakeOrders.PlacesOn(c, 0) then 1 else 0);
  }

  // ---------- nobody else ends or begins its delay ----------

  ghost predicate SparesActions(actions: seq<Action>, t: TaskId) {
    forall a <- actions :: a.Advance? || a.t != t
  }

  lemma {:induction false} CancelsMembers(s: seq<TaskId>, t: TaskId)
    requires t !in s
    ensures SparesActions(Cancels(s), t)
    decreases |s|
  {
    if s != [] {
      CancelsMembers(Without(s, s[0]), t);
    }
  }

  lemma {:induction false} AdvancesMembers(n: nat, t: TaskId)
    ensures SparesActions(Advances(n), t)
  {
    if n > 0 {
      AdvancesMembers(n - 1, t);
    }
  }

  lemma {:induction false} StepSparesActions(k: Kernel, c: Call, t: TaskId)
    requires Allowed(k, c) && Spares(k, c, t) && Untied(k, t)
    ensures SparesActions(Actions(k, c), t)
  {
    if c.RemoveFromEvent? {
      assert k.EventList(c.e)[0] in k.EventList(c.e);
    } else if c.ResumeAll? {
      CancelsMembers(k.pending, t);
      AdvancesMembers(k.pendedTicks, t);
    }
  }

  lemma {:induction false} RunSparesActions(k: Kernel, calls: seq<Call>, t: TaskId)
    requires Inv(k) && Legal(k, calls) && SparesAll(k, calls, t) && Untied(k, t)
    ensures Untied(After(k, calls), t) && SparesActions(ActionsOf(k, calls), t)
    decreases |calls|
  {
    if calls != [] {
      StepUnties(k, calls[0], t);
      StepSparesActions(k, calls[0], t);
      StepKeeps(k, calls[0]);
      RunSparesActions(Apply(k, calls[0]), calls[1..], t);
    }
  }

  // ---------- the one sleeper ----------

  ghost predicate OnlySleeper(q: seq<Sleeper>, x: Sleeper) {
    forall y :: y in q && y.task == x.task ==> y == x
  }

  lemma {:induction false} StaysOnly(i: Ideal, actions: seq<Action>, x: Sleeper)
    requires Ordered(i.queue) && OnlySleeper(i.queue, x) && SparesActions(actions, x.task)
    ensures OnlySleeper(ActAll(i, actions).queue, x)
    decreases |actions|
  {
    if actions != [] {
      var a := actions[0];
      assert a in actions;
      match a {
        case Begin(t, ticks) => EnterMembers(i.queue, Sleeper(i.now + ticks, t));
        case Cancel(t) => CancelledMembers(i.queue, t);
        case Advance => ExpireMembers(i.queue, i.now + 1);
      }
      OrderedAfter(i, a);
      StaysOnly(Act(i, a), actions[1..], x);
    }
  }

  lemma {:induction false} OrderedAfter(i: Ideal, a: Action)
    requires Ordered(i.queue)
    ensures Ordered(Act(i, a).queue)
  {
    match a {
      case Begin(t, ticks) => EnterMembers(i.queue, Sleeper(i.now + ticks, t));
      case Cancel(t) => CancelledMembers(i.queue, t);
      case Advance => ExpireMembers(i.queue, i.now + 1);
    }
  }

  lemma {:induction false} BeginEnters(i: Ideal, t: TaskId, ticks: Tick)
    requires Ordered(i.queue)
    ensures var r := Act(i, Begin(t, ticks));
            Ordered(r.queue) && r.now == i.now && Sleeper(i.now + ticks, t) in r.queue
    ensures (forall y :: y in i.queue ==> y.task != t) ==>
              OnlySleeper(Act(i, Begin(t, ticks)).queue, Sleeper(i.now + ticks, t))
  {
    var x := Sleeper(i.now + ticks, t);
    EnterMembers(i.queue, x);
    assert Act(i, Begin(t, ticks)) == Ideal(i.now, Enter(i.queue, x));
    assert x in Enter(i.queue, x);
  }

  lemma {:induction false} SleepersTasks(k: Kernel, now: int, t: TaskId)
    ensures t in k.delayed || t in k.overflow <==> exists x :: x in Sleepers(k, now) && x.task == t
  {
    var e := Epoch(now);
    var a, b := Lift(k.tcb, k.delayed, e), Lift(k.tcb, k.overflow, e + 1);
    if t in k.delayed {
      var j :| 0 <= j < |k.delayed| && k.delayed[j] == t;
      assert a[j] in Sleepers(k, now);
    }
    if t in k.overflow {
      var j :| 0 <= j < |k.overflow| && k.overflow[j] == t;
      assert b[j] in Sleepers(k, now);
    }
  }

  /** The delayed lists hold the task exactly while the ideal queue holds its sleeper. */
  lemma {:induction false} ListedExactlyIf(r: Kernel, n: int, x: Sleeper)
    requires OnlySleeper(Sleepers(r, n), x)
    ensures x.task in r.delayed || x.task in r.overflow <==> x in Sleepers(r, n)
  {
    SleepersTasks(r, n, x.task);
  }

  // ---------- the result ----------

  /** What vTaskDelay does to the calling task. */
  lemma {:induction false} DelayBegins(k: Kernel, i: Ideal, ticks: Tick)
    requires Inv(k) && Shows(k, i) && Allowed(k, Block(ticks))
    ensures var t, k1, i1 := k.current, Apply(k, Block(ticks)), Act(i, Begin(k.current, ticks));
            && Inv(k1) && Shows(k1, i1) && Untied(k1, t) && i1.now == i.now && Ordered(i1.queue)
            && Sleeper(i.now + ticks, t) in i1.queue && OnlySleeper(i1.queue, Sleeper(i.now + ticks, t))
  {
    BlockShows(k, i, ticks);
    StepKeeps(k, Block(ticks));
    SleepersOrdered(k, i.now);
    Places(k, k.current);
    SleepersTasks(k, i.now, k.current);
    BeginEnters(i, k.current, ticks);
    ReadyIsUntied(k);
    BlockUnties(k, ticks);
  }

  lemma ReadyIsUntied(k: Kernel)
    requires Inv(k) && k.IsReady(k.current)
    ensures Untied(k, k.current)
  {
    Places(k, k.current);
  }

  lemma BlockUnties(k: Kernel, ticks: Tick)
    requires Allowed(k, Block(ticks)) && Untied(k, k.current)
    ensures Untied(Apply(k, Block(ticks)), k.current)
  {
    var r := BlockOnEvent(k, false, ticks);
    assert Apply(k, Block(ticks)) == r;
    BlockOnEventLists(k, false, ticks);
    forall e ensures k.current !in r.EventList(e) {
      assert r.EventList(e) == k.EventList(e);
    }
  }

  /** A delay is exact over every run.  The calling task blocks for `ticks` at ideal time N; whatever tasks and
      interrupts do, short of deleting or suspending it and until it blocks again, it is on a delayed list exactly
      while the ideal clock is below N + ticks and ready from then on: across any number of wraps, and with the
      ticks that were pended while the scheduler was suspended counted as they are made up for. */
  lemma {:induction false} DelayIsExact(k: Kernel, i: Ideal, ticks: Tick, calls: seq<Call>)
    requires Inv(k) && Shows(k, i) && Allowed(k, Block(ticks)) && Legal(Apply(k, Block(ticks)), calls)
    requires SparesAll(Apply(k, Block(ticks)), calls, k.current)
    ensures var t, k1 := k.current, Apply(k, Block(ticks));
            var r, n := After(k1, calls), ActAll(Act(i, Begin(t, ticks)), ActionsOf(k1, calls)).now;
            && Residue(n) == r.tick
            && (t in r.delayed || t in r.overflow <==> n < i.now + ticks)
            && (r.IsReady(t) <==> n >= i.now + ticks)
  {
    var t, k1, i1, x := k.current, Apply(k, Block(ticks)), Act(i, Begin(k.current, ticks)),
                        Sleeper(i.now + ticks, k.current);
    DelayBegins(k, i, ticks);
    RunSparesActions(k1, calls, t);
    RunRefines(k1, calls, i1);
    IdealDelayIsExact(i1, ActionsOf(k1, calls), x);
    StaysOnly(i1, ActionsOf(k1, calls), x);
    var r := After(k1, calls);
    ListedExactlyIf(r, ActAll(i1, ActionsOf(k1, calls)).now, x);
    RunKeeps(k1, calls);
    Places(r, t);
  }
}
