/** Timers that do not reload, and what restarting a timer and changing its period do. */
module OneShots {
  import opened Ticks
  import opened ListModel
  import opened Timers
  import opened TimerRuns

  // ---------- a one-shot timer ----------

  /** Armed for its one deadline, and not called back. */
  predicate Pending(d: Daemon, t: TimerId, start: int, period: Period, log: nat) {
    && d.Of(t) == Timer(period, false) && log <= |d.callbacks|
    && Times(d.callbacks[log..], t) == [] && Armed(d, t, start + period, period)
  }

  /** Called back once, at its deadline or later, and dormant again. */
  predicate Fulfilled(d: Daemon, t: TimerId, start: int, period: Period, log: nat) {
    && d.Of(t) == Timer(period, false) && log <= |d.callbacks|
    && Dormant(d, t)
    && var times := Times(d.callbacks[log..], t);
       |times| == 1 && times[0] >= start + period
  }

  predicate OnceOnly(d: Daemon, t: TimerId, start: int, period: Period, log: nat) {
    Pending(d, t, start, period, log) || Fulfilled(d, t, start, period, log)
  }

  lemma SameSharePending(d: Daemon, r: Daemon, t: TimerId, start: int, period: Period, log: nat)
    requires Pending(d, t, start, period, log) && SameShare(d, r, t, log) && Epoch(r.at) == Epoch(d.at)
    ensures Pending(r, t, start, period, log)
  {
  }

  lemma SameShareFulfilled(d: Daemon, r: Daemon, t: TimerId, start: int, period: Period, log: nat)
    requires Fulfilled(d, t, start, period, log) && SameShare(d, r, t, log)
    ensures Fulfilled(r, t, start, period, log)
  {
  }

  /** Expiry of the timer, by a list switch or in the current list: one callback, and nothing is filed again. */
  lemma {:induction false} HeadFires(d: Daemon, now: int, t: TimerId, start: int, period: Period, log: nat)
    requires Pending(d, t, start, period, log) && d.current != [] && d.current[0].timer == t && now >= start + period
    ensures Fulfilled(Expire(d, now), t, start, period, log) && Expire(d, now).at == d.at
    ensures ProcessExpired(d, now) == Expire(d, now)
  {
    OursAtHead(d, t, start + period, period);
    Fired(d.(current := d.current[1..]), t, now, t, log);
  }

  lemma {:induction false} ExpireAllFulfilled(d: Daemon, now: int, t: TimerId, start: int, period: Period, log: nat)
    requires Fulfilled(d, t, start, period, log)
    ensures Fulfilled(ExpireAll(d, now), t, start, period, log)
  {
    ExpireAllOthers(d, now, t, log);
    SameShareFulfilled(d, ExpireAll(d, now), t, start, period, log);
  }

  lemma {:induction false} ExpireAllOnce(d: Daemon, now: int, t: TimerId, start: int, period: Period, log: nat)
    requires Pending(d, t, start, period, log) && Epoch(d.at) < Epoch(now)
    ensures OnceOnly(ExpireAll(d, now), t, start, period, log)
    decreases Remaining(d.current)
  {
    if d.current != [] {
      var n := Expire(d, now);
      ExpireShrinks(d, now);
      if d.current[0].timer == t {
        OursAtHead(d, t, start + period, period);
        EpochsOrder(start + period, now);
        HeadFires(d, now, t, start, period, log);
        ExpireAllFulfilled(n, now, t, start, period, log);
      } else {
        ExpireOther(d, now, t, log);
        SameSharePending(d, n, t, start, period, log);
        ExpireAllOnce(n, now, t, start, period, log);
      }
    }
  }

  lemma {:induction false} SampleOnce(d: Daemon, now: int, t: TimerId, start: int, period: Period, log: nat)
    requires Pending(d, t, start, period, log) && d.last == Residue(d.at) && d.at <= now < d.at + MOD
    ensures var (s, switched) := Sample(d, now);
            && OnceOnly(s, t, start, period, log) && s.at == now
            && (!switched ==> Pending(s, t, start, period, log) && s == d.(last := Residue(now), at := now))
  {
    WithinOneRevolution(d.at, now - d.at);
    if Residue(now) < d.last {
      ExpireAllFrame(d, now);
      ExpireAllOnce(d, now, t, start, period, log);
    }
  }

  lemma {:induction false} WakeOnce(d: Daemon, now: int, t: TimerId, start: int, period: Period, log: nat)
    requires Pending(d, t, start, period, log) && InTime(d, now, start)
    ensures OnceOnly(Wake(d, now).0, t, start, period, log)
  {
    var (s, switched) := Sample(d, now);
    SampleOnce(d, now, t, start, period, log);
    if !switched && d.current != [] && d.current[0].value <= Residue(now) {
      if d.current[0].timer == t {
        OursAtHead(s, t, start + period, period);
        EpochsOrder(start + period, now);
        HeadFires(s, now, t, start, period, log);
      } else {
        ProcessOther(s, now, t, log);
        SameSharePending(s, ProcessExpired(s, now), t, start, period, log);
      }
    }
  }

  lemma {:induction false} ReceiveOtherOnce(d: Daemon, now: int, t: TimerId, start: int, period: Period, log: nat)
    requires Pending(d, t, start, period, log) && InTime(d, now, start) && d.queue != [] && d.queue[0].timer != t
    ensures OnceOnly(Receive(d, now), t, start, period, log)
  {
    var u := Unlinked(d);
    UnlinkedShare(d, t);
    SameSharePending(d, u, t, start, period, log);
    SampleOnce(u, now, t, start, period, log);
    var s := Sample(u, now).0;
    ExecuteOther(s, d.queue[0], now, t, log);
    if Pending(s, t, start, period, log) {
      SameSharePending(s, Receive(d, now), t, start, period, log);
    } else {
      SameShareFulfilled(s, Receive(d, now), t, start, period, log);
    }
  }

  /** The start command is carried out rightly exactly if it comes in good time. */
  lemma {:induction false} ReceiveOursOnce(d: Daemon, now: int, t: TimerId, start: int, period: Period, log: nat)
    requires Pending(d, t, start, period, log) && InTime(d, now, start) && d.queue != [] && d.queue[0].timer == t
    ensures OnceOnly(Receive(d, now), t, start, period, log) <==> InGoodTime(start, now, period)
  {
    var u := Unlinked(d);
    HeadIsOurs(d, t, start + period, period);
    SampleFrame(u, now);
    SampleOthers(u, now, t, log);
    assert start + period - period == start;
    StartedOnce(Sample(u, now).0, now, t, start, period, log);
  }

  /** Our start command, carried out with the timer in no list. */
  lemma {:induction false} StartedOnce(s: Daemon, now: int, t: TimerId, start: int, period: Period, log: nat)
    requires Dormant(s, t) && s.Of(t) == Timer(period, false) && log <= |s.callbacks|
    requires Times(s.callbacks[log..], t) == [] && start <= now && s.at == now
    ensures OnceOnly(Execute(s, Start(t, Residue(start)), now), t, start, period, log)
            <==> InGoodTime(start, now, period)
  {
    InsertOurs(s, t, start, now, period);
    Fired(s, t, now, t, log);
  }

  lemma {:induction false} StepKeepsOnce(d: Daemon, s: Step, t: TimerId, start: int, period: Period, log: nat)
    requires OnceOnly(d, t, start, period, log) && Allowed(d, s, t, start) && d.last == Residue(d.at)
    ensures OnceOnly(Apply(d, s), t, start, period, log) <==> ComesInTime(d, s, t, start, period)
  {
    if Fulfilled(d, t, start, period, log) {
      DormantStep(d, s, t, log);
      SameShareFulfilled(d, Apply(d, s), t, start, period, log);
      if s.ReceiveStep? {
        NoOrderAtHead(d, t);
      }
    } else if s.Make? {
      SameSharePending(d, Apply(d, s), t, start, period, log);
    } else if s.Ask? {
      SendOrders(d, s.command, t);
      SameSharePending(d, Send(d, s.command), t, start, period, log);
    } else if s.WakeStep? {
      WakeOnce(d, s.now, t, start, period, log);
    } else if d.queue[0].timer == t {
      ReceiveOursOnce(d, s.now, t, start, period, log);
    } else {
      ReceiveOtherOnce(d, s.now, t, start, period, log);
    }
  }

  /** The start command of `t`, when it is received, comes in good time. */
  predicate ComesInTime(d: Daemon, s: Step, t: TimerId, start: int, period: Period) {
    s.ReceiveStep? && d.queue != [] && d.queue[0].timer == t ==> InGoodTime(start, s.now, period)
  }

  lemma StepSamples(d: Daemon, s: Step, t: TimerId, start: int)
    requires Allowed(d, s, t, start) && d.last == Residue(d.at)
    ensures Apply(d, s).last == Residue(Apply(d, s).at)
  {
    if s.WakeStep? {
      SampleFrame(d, s.now);
      if d.current != [] {
        var m := Sample(d, s.now).0;
        if m.current != [] {
          ProcessFrame(m, s.now);
        }
      }
    } else if s.ReceiveStep? {
      SampleFrame(Unlinked(d), s.now);
      ExecuteFrame(Sample(Unlinked(d), s.now).0, d.queue[0], s.now);
    }
  }

  // ---------- runs ----------

  ghost predicate AllInTime(d: Daemon, run: seq<Step>, t: TimerId, start: int, period: Period)
    requires Possible(d, run, t, start)
    decreases |run|
  {
    run != [] ==>
      ComesInTime(d, run[0], t, start, period) && AllInTime(Apply(d, run[0]), run[1..], t, start, period)
  }

  ghost predicate AlwaysOnce(d: Daemon, run: seq<Step>, t: TimerId, start: int, period: Period, log: nat)
    requires Possible(d, run, t, start)
    decreases |run|
  {
    && OnceOnly(d, t, start, period, log)
    && (run != [] ==> AlwaysOnce(Apply(d, run[0]), run[1..], t, start, period, log))
  }

  lemma {:induction false} RunKeepsOnce(d: Daemon, run: seq<Step>, t: TimerId, start: int, period: Period, log: nat)
    requires OnceOnly(d, t, start, period, log) && d.last == Residue(d.at) && Possible(d, run, t, start)
    ensures AlwaysOnce(d, run, t, start, period, log) <==> AllInTime(d, run, t, start, period)
    decreases |run|
  {
    if run != [] {
      StepSamples(d, run[0], t, start);
      StepKeepsOnce(d, run[0], t, start, period, log);
      if OnceOnly(Apply(d, run[0]), t, start, period, log) {
        RunKeepsOnce(Apply(d, run[0]), run[1..], t, start, period, log);
      }
    }
  }

  lemma {:induction false} OnceAtTheEnd(d: Daemon, run: seq<Step>, t: TimerId, start: int, period: Period, log: nat)
    requires Possible(d, run, t, start) && AlwaysOnce(d, run, t, start, period, log)
    ensures OnceOnly(After(d, run), t, start, period, log)
    decreases |run|
  {
    if run != [] {
      OnceAtTheEnd(Apply(d, run[0]), run[1..], t, start, period, log);
    }
  }

  lemma {:induction false} StepTidy(d: Daemon, s: Step, t: TimerId, start: int)
    requires Allowed(d, s, t, start) && Tidy(d)
    ensures Tidy(Apply(d, s))
  {
    if s.WakeStep? {
      WakeTidy(d, s.now);
    } else if s.ReceiveStep? {
      ReceiveTidy(d, s.now);
    }
  }

  lemma {:induction false} RunTidy(d: Daemon, run: seq<Step>, t: TimerId, start: int)
    requires Possible(d, run, t, start) && Tidy(d) && d.last == Residue(d.at)
    ensures Tidy(After(d, run)) && After(d, run).last == Residue(After(d, run).at)
    decreases |run|
  {
    if run != [] {
      StepTidy(d, run[0], t, start);
      StepSamples(d, run[0], t, start);
      RunTidy(Apply(d, run[0]), run[1..], t, start);
    }
  }

  // ---------- the results ----------

  /** Timer `t`, which does not reload and is in no list, is started at ideal time `start`. */
  ghost predicate JustStartedOnce(d: Daemon, t: TimerId, start: int, period: Period) {
    && d.Of(t) == Timer(period, false)
    && Mine(d.current, t) == [] && Mine(d.overflow, t) == [] && Orders(d.queue, t) == [Start(t, Residue(start))]
    && Tidy(d) && d.last == Residue(d.at)
  }

  /** In every run with time sampled within each revolution: a one-shot timer is called back at most once, and not
      before its deadline, is armed for it until then and dormant afterwards, exactly if its start command is received
      in good time. */
  lemma {:induction false} OneShotIsExactExactlyIf(d: Daemon, run: seq<Step>, t: TimerId, start: int, period: Period)
    requires JustStartedOnce(d, t, start, period) && Possible(d, run, t, start)
    ensures AlwaysOnce(d, run, t, start, period, |d.callbacks|) <==> AllInTime(d, run, t, start, period)
  {
    assert d.callbacks[|d.callbacks|..] == [];
    assert start + period - period == start;
    RunKeepsOnce(d, run, t, start, period, |d.callbacks|);
  }

  /** ... and when the daemon then blocks with no command left for it, it has been called back exactly if its deadline
      has passed. */
  lemma {:induction false} OneShotHasFiredExactlyIf(d: Daemon, run: seq<Step>, now: int, t: TimerId, start: int,
                                                   period: Period)
    requires JustStartedOnce(d, t, start, period) && Possible(d, run, t, start) && AllInTime(d, run, t, start, period)
    requires var r := After(d, run); InTime(r, now, start) && Wake(r, now).1 && Orders(r.queue, t) == []
    ensures var r := After(d, run);
            && |d.callbacks| <= |r.callbacks|
            && var times := Times(r.callbacks[|d.callbacks|..], t);
               (if now >= start + period then |times| == 1 && start + period <= times[0] <= now else times == [])
  {
    var r, log := After(d, run), |d.callbacks|;
    OneShotIsExactExactlyIf(d, run, t, start, period);
    OnceAtTheEnd(d, run, t, start, period, log);
    RunTidy(d, run, t, start);
    LogInOrder(r, t, log);
    if Pending(r, t, start, period, log) {
      SampleOnce(r, now, t, start, period, log);
      IdleMeansAhead(Sample(r, now).0, now, t, start + period, period);
    }
  }

  // ---------- starting a timer again, and changing its period ----------

  lemma {:induction false} WithoutTwice(s: seq<Entry>, t: TimerId)
    ensures WithoutTimer(WithoutTimer(s, t), t) == WithoutTimer(s, t)
  {
    if s != [] {
      WithoutTwice(s[1..], t);
    }
  }

  /** The daemon with timer `t` in no list. */
  function Cleared(d: Daemon, t: TimerId): Daemon {
    d.(current := WithoutTimer(d.current, t), overflow := WithoutTimer(d.overflow, t))
  }

  /** A command makes the daemon forget where its timer was filed. */
  lemma {:induction false} ReceiveForgets(d: Daemon, now: int)
    requires d.queue != []
    ensures Receive(d, now) == Receive(Cleared(d, d.queue[0].timer), now)
  {
    WithoutTwice(d.current, d.queue[0].timer);
    WithoutTwice(d.overflow, d.queue[0].timer);
  }

  lemma {:induction false} ClearedShare(d: Daemon, t: TimerId)
    requires Tidy(d)
    ensures Mine(Cleared(d, t).current, t) == [] && Mine(Cleared(d, t).overflow, t) == [] && Tidy(Cleared(d, t))
  {
    MineWithout(d.current, t, t);
    MineWithout(d.overflow, t, t);
    WithoutTimerSorted(d.current, t);
    WithoutTimerSorted(d.overflow, t);
  }

  lemma OnlyOrder(d: Daemon, t: TimerId, c: Command)
    requires d.queue != [] && d.queue[0] == c && c.timer == t && Orders(d.queue[1..], t) == []
    ensures Orders(d.queue, t) == [c]
  {
  }

  /** xTimerReset and xTimerStart on a timer that is running: from then on it keeps the schedule of the new start,
      whatever it was armed for, exactly if the command is received in good time. */
  lemma {:induction false} RestartKeepsNewSchedule(d: Daemon, now: int, t: TimerId, start: int, period: Period)
    requires d.Of(t).period == period && Tidy(d) && InTime(d, now, start)
    requires d.queue != [] && d.queue[0] == Start(t, Residue(start)) && Orders(d.queue[1..], t) == []
    requires Receive(d, now).lost == d.lost
    ensures var r, log := Receive(d, now), |d.callbacks|;
            && (d.Of(t).autoReload ==> (OnSchedule(r, t, start, period, log) <==> InGoodTime(start, now, period)))
            && (!d.Of(t).autoReload ==> (OnceOnly(r, t, start, period, log) <==> InGoodTime(start, now, period)))
  {
    var c := Cleared(d, t);
    ReceiveForgets(d, now);
    ClearedShare(d, t);
    OnlyOrder(d, t, d.queue[0]);
    assert c.callbacks[|d.callbacks|..] == [];
    assert start + period - period == start;
    if d.Of(t).autoReload {
      JustStartedOnSchedule(c, t, start, period);
      ReceiveOurs(c, now, t, start, period, |d.callbacks|);
    } else {
      ReceiveOursOnce(c, now, t, start, period, |d.callbacks|);
    }
  }

  /** xTimerChangePeriod: the timer has the new period and is armed for one of them from the time of the sample,
      whatever it was armed for; nothing is called back for it. */
  lemma {:induction false} ChangePeriodRestarts(d: Daemon, now: int, t: TimerId, period: Period)
    requires Tidy(d) && d.queue != [] && d.queue[0] == ChangePeriod(t, period) && Orders(d.queue[1..], t) == []
    ensures var r, log := Receive(d, now), |d.callbacks|;
            && r.Of(t) == Timer(period, d.Of(t).autoReload)
            && (d.Of(t).autoReload ==> OnSchedule(r, t, now, period, log))
            && (!d.Of(t).autoReload ==> Pending(r, t, now, period, log))
  {
    var u := Unlinked(d);
    UnlinkedShare(d, t);
    SampleFrame(u, now);
    SampleOthers(u, now, t, |d.callbacks|);
    var s := Sample(u, now).0;
    var changed := s.(timers := s.timers[t := Timer(period, s.Of(t).autoReload)]);
    InsertOurs(changed, t, now, now, period);
    WithinOneRevolution(now, period);
    assert d.callbacks[|d.callbacks|..] == [];
    assert Due(now, period, 0) == now + period;
  }
}
