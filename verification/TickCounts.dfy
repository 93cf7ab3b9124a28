/** What the tick count and the overflow count say together: the reading that time-outs are built on. */
module TickCounts {
  import opened Ticks
  import opened ListModel
  import opened Tasks
  import opened TaskInvariants
  import opened TaskRuns
  import opened TaskTime
  import Deadlines

  /** xNumOfOverflows and xTickCount as one unbounded tick count. */
  function WholeCount(k: Kernel): int {
    At(k.overflows, k.tick)
  }

  lemma {:induction false} LiveTickCounts(k: Kernel)
    ensures WholeCount(LiveTick(k).0) == WholeCount(k) + 1
  {
    LiveTickIsWakeDue(k);
    WakeDueKeeps(Advanced(k), false);
  }

  lemma {:induction false} ReplayCounts(k: Kernel)
    ensures WholeCount(ReplayTicks(k)) == WholeCount(k) + k.pendedTicks
    decreases k.pendedTicks
  {
    if k.pendedTicks > 0 {
      LiveTickCounts(k);
      ReplayCounts(ReplayTick(k));
    }
  }

  lemma {:induction false} ResumeCounts(k: Kernel)
    requires k.suspensions > 0 && k.taskCount > 0
    ensures WholeCount(Tasks.ResumeAll(k)) == WholeCount(k) + if k.suspensions == 1 then k.pendedTicks else 0
  {
    if k.suspensions == 1 {
      DrainFrame(k.(suspensions := 0));
      ReplayCounts(DrainPending(k.(suspensions := 0)));
    }
  }

  /** A tick counts at once while the scheduler runs, and is made up for when it is resumed. */
  lemma {:induction false} StepCounts(k: Kernel, c: Call)
    requires Allowed(k, c) && k.taskCount > 0
    ensures WholeCount(Apply(k, c)) == WholeCount(k) +
              if c.IncrementTick? && k.suspensions == 0 then 1
              else if c.ResumeAll? && k.suspensions == 1 then k.pendedTicks else 0
  {
    if c.IncrementTick? {
      LiveTickCounts(k);
    } else if c.ResumeAll? {
      ResumeCounts(k);
    } else {
      OtherCallsKeepClock(k, c);
    }
  }

  // ---------- the counters and the ideal clock ----------

  lemma {:induction false} CancelsTakeNoTime(i: Ideal, s: seq<TaskId>)
    ensures ActAll(i, Cancels(s)).now == i.now
    decreases |s|
  {
    if s != [] {
      ActAllFirst(i, Cancel(s[0]), Cancels(Without(s, s[0])));
      CancelsTakeNoTime(Act(i, Cancel(s[0])), Without(s, s[0]));
    }
  }

  lemma {:induction false} AdvancesTakeTime(i: Ideal, n: nat)
    ensures ActAll(i, Advances(n)).now == i.now + n
    decreases n
  {
    if n > 0 {
      ActAllFirst(i, Advance, Advances(n - 1));
      AdvancesTakeTime(Act(i, Advance), n - 1);
    }
  }

  /** The actions of a call move the ideal clock by as many ticks as the call counts. */
  lemma {:induction false} ActionsTakeTime(k: Kernel, c: Call, i: Ideal)
    requires Allowed(k, c)
    ensures ActAll(i, Actions(k, c)).now == i.now +
              if c.IncrementTick? && k.suspensions == 0 then 1
              else if c.ResumeAll? && k.suspensions == 1 then k.pendedTicks else 0
  {
    if c.ResumeAll? && k.suspensions == 1 {
      var j := ActAll(i, Cancels(k.pending));
      ActAllConcat(i, Cancels(k.pending), Advances(k.pendedTicks));
      CancelsTakeNoTime(i, k.pending);
      AdvancesTakeTime(j, k.pendedTicks);
    } else if Actions(k, c) != [] {
      ActOne(i, Actions(k, c)[0]);
      assert Actions(k, c) == [Actions(k, c)[0]];
    }
  }

  lemma TasksExist(k: Kernel)
    requires Inv(k)
    ensures k.taskCount > 0
  {
    assert k.current in k.tcb.Keys;
  }

  /** In every run the two counters together are the ideal clock. */
  lemma {:induction false} RunCounts(k: Kernel, calls: seq<Call>, i: Ideal)
    requires Inv(k) && Legal(k, calls) && WholeCount(k) == i.now
    ensures WholeCount(After(k, calls)) == ActAll(i, ActionsOf(k, calls)).now
    decreases |calls|
  {
    if calls != [] {
      var c := calls[0];
      TasksExist(k);
      StepKeeps(k, c);
      StepCounts(k, c);
      ActionsTakeTime(k, c, i);
      RunCounts(Apply(k, c), calls[1..], ActAll(i, Actions(k, c)));
      ActAllConcat(i, Actions(k, c), ActionsOf(Apply(k, c), calls[1..]));
    }
  }

  lemma {:induction false} CountersShowIdealTime(idle: TaskId, calls: seq<Call>)
    requires Legal(Started(idle), calls)
    ensures WholeCount(After(Started(idle), calls))
            == ActAll(Ideal(0, []), ActionsOf(Started(idle), calls)).now
  {
    StartedKeeps(idle);
    RunCounts(Started(idle), calls, Ideal(0, []));
  }

  /** What vTaskSetTimeOutState and xTaskCheckForTimeOut read, the overflow count being 32 bits wide. */
  function ReadingOf(k: Kernel): Deadlines.Reading {
    Deadlines.Reading(Residue(k.overflows), k.tick)
  }

  /** Ideal time after a run of calls from the start of the scheduler. */
  ghost function TimeAfter(idle: TaskId, calls: seq<Call>): int
    requires Legal(Started(idle), calls)
  {
    ActAll(Ideal(0, []), ActionsOf(Started(idle), calls)).now
  }

  /** In every run, what a timeout reads is the reading of ideal time ... */
  lemma {:induction false} CountersReadOneTime(idle: TaskId, calls: seq<Call>)
    requires Legal(Started(idle), calls)
    ensures ReadingOf(After(Started(idle), calls)) == Deadlines.ReadingAt(TimeAfter(idle, calls))
  {
    var k := After(Started(idle), calls);
    CountersShowIdealTime(idle, calls);
    AtParts(k.overflows, k.tick);
  }

  lemma {:induction false} RunOnward(k: Kernel, before: seq<Call>, more: seq<Call>)
    requires Legal(k, before + more)
    ensures Legal(k, before) && Legal(After(k, before), more)
    ensures After(k, before + more) == After(After(k, before), more)
    ensures ActionsOf(k, before + more) == ActionsOf(k, before) + ActionsOf(After(k, before), more)
    decreases |before|
  {
    if before == [] {
      assert before + more == more;
    } else {
      assert (before + more)[0] == before[0] && (before + more)[1..] == before[1..] + more;
      RunOnward(Apply(k, before[0]), before[1..], more);
    }
  }

  lemma {:induction false} ActionsNeverTurnBack(i: Ideal, actions: seq<Action>)
    ensures ActAll(i, actions).now >= i.now
    decreases |actions|
  {
    if actions != [] {
      ActionsNeverTurnBack(Act(i, actions[0]), actions[1..]);
    }
  }

  /** ... so a check made later in the run than the entry never reports expiry before the wait is over in ideal
      time, and reports it exactly then if the tick count has wrapped at most once in between. */
  lemma {:induction false} TimeOutsKeepIdealTime(idle: TaskId, before: seq<Call>, more: seq<Call>, wait: Tick)
    requires Legal(Started(idle), before + more)
    ensures Legal(Started(idle), before)
    ensures var k, entered, now := Started(idle), TimeAfter(idle, before), TimeAfter(idle, before + more);
            var expired := Deadlines.Expired(ReadingOf(After(k, before)), wait, ReadingOf(After(k, before + more)));
            && entered <= now
            && (expired ==> wait != MAX_DELAY && now >= entered + wait)
            && (wait != MAX_DELAY && Epoch(now) <= Epoch(entered) + 1 ==> (expired <==> now >= entered + wait))
  {
    var k := Started(idle);
    RunOnward(k, before, more);
    ActAllConcat(Ideal(0, []), ActionsOf(k, before), ActionsOf(After(k, before), more));
    ActionsNeverTurnBack(ActAll(Ideal(0, []), ActionsOf(k, before)), ActionsOf(After(k, before), more));
    CountersReadOneTime(idle, before);
    CountersReadOneTime(idle, before + more);
    var entered, now := TimeAfter(idle, before), TimeAfter(idle, before + more);
    Deadlines.NeverEarly(entered, wait, now);
    if wait != MAX_DELAY && Epoch(now) <= Epoch(entered) + 1 {
      Deadlines.ExactWithinOneWrap(entered, wait, now);
    }
  }
}
