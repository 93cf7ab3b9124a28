/** What becomes of one auto-reload timer after one start command, among any other timers and commands. */
module TimerRuns {
  import opened Ticks
  import opened ListModel
  import opened Timers

  // ---------- one timer's share of the state ----------

  /** The expiry values under which a list holds timer `t`. */
  function Mine(s: seq<Entry>, t: TimerId): seq<Tick> {
    if s == [] then []
    else if s[0].timer == t then [s[0].value] + Mine(s[1..], t)
    else Mine(s[1..], t)
  }

  function Orders(q: seq<Command>, t: TimerId): seq<Command> {
    if q == [] then []
    else if q[0].timer == t then [q[0]] + Orders(q[1..], t)
    else Orders(q[1..], t)
  }

  /** When the daemon has called the timer back. */
  function Times(log: seq<Callback>, t: TimerId): seq<int> {
    if log == [] then []
    else if log[0].timer == t then [log[0].now] + Times(log[1..], t)
    else Times(log[1..], t)
  }

  lemma {:induction false} MineConcat(a: seq<Entry>, b: seq<Entry>, t: TimerId)
    ensures Mine(a + b, t) == Mine(a, t) + Mine(b, t)
  {
    if a == [] {
      assert a + b == b;
    } else {
      assert (a + b)[0] == a[0] && (a + b)[1..] == a[1..] + b;
      MineConcat(a[1..], b, t);
    }
  }

  lemma {:induction false} OrdersConcat(a: seq<Command>, b: seq<Command>, t: TimerId)
    ensures Orders(a + b, t) == Orders(a, t) + Orders(b, t)
  {
    if a == [] {
      assert a + b == b;
    } else {
      assert (a + b)[0] == a[0] && (a + b)[1..] == a[1..] + b;
      OrdersConcat(a[1..], b, t);
    }
  }

  lemma {:induction false} TimesConcat(a: seq<Callback>, b: seq<Callback>, t: TimerId)
    ensures Times(a + b, t) == Times(a, t) + Times(b, t)
  {
    if a == [] {
      assert a + b == b;
    } else {
      assert (a + b)[0] == a[0] && (a + b)[1..] == a[1..] + b;
      TimesConcat(a[1..], b, t);
    }
  }

  /** Inserting an entry puts it among its own timer's entries, and leaves other timers' alone. */
  lemma {:induction false} MineInsert(s: seq<Entry>, e: Entry, t: TimerId)
    ensures e.timer != t ==> Mine(InsertEntry(s, e), t) == Mine(s, t)
    ensures e.timer == t && Mine(s, t) == [] ==> Mine(InsertEntry(s, e), t) == [e.value]
  {
    var p := InsertPos(Values(s), e.value);
    MineConcat(s[..p] + [e], s[p..], t);
    MineConcat(s[..p], [e], t);
    MineConcat(s[..p], s[p..], t);
    assert s == s[..p] + s[p..];
    assert Mine([e], t) == if e.timer == t then [e.value] else [];
  }

  lemma {:induction false} MineWithout(s: seq<Entry>, u: TimerId, t: TimerId)
    ensures Mine(WithoutTimer(s, u), t) == if u == t then [] else Mine(s, t)
  {
    if s != [] {
      MineWithout(s[1..], u, t);
    }
  }

  // ---------- where the next deadline is kept ----------

  /** The deadline `due` of timer `t` is kept in exactly one place: under the epoch of the last sample in the
      current list, under the next epoch in the overflow list, or as a start command one period before it. */
  predicate Armed(d: Daemon, t: TimerId, due: int, period: Period) {
    var c, o, q := Mine(d.current, t), Mine(d.overflow, t), Orders(d.queue, t);
    || (c == [Residue(due)] && o == [] && q == [] && Epoch(due) == Epoch(d.at))
    || (c == [] && o == [Residue(due)] && q == [] && Epoch(due) == Epoch(d.at) + 1)
    || (c == [] && o == [] && q == [Start(t, Residue(due - period))])
  }

  /** In neither list, and with no command on its way. */
  predicate Dormant(d: Daemon, t: TimerId) {
    Mine(d.current, t) == [] && Mine(d.overflow, t) == [] && Orders(d.queue, t) == []
  }

  /** The k-th callback (from 1) was not made before start + k * period. */
  predicate NotEarly(times: seq<int>, start: int, period: Period) {
    forall i :: 0 <= i < |times| ==> times[i] >= start + (i + 1) * period
  }

  /** The deadline after n callbacks. */
  function Due(start: int, period: Period, n: nat): int {
    start + (n + 1) * period
  }

  /** Timer `t`, started at ideal time `start`, has been called back for the deadlines up to one and is
      armed for the next; `log` counts the callbacks of all timers before the start. */
  predicate OnSchedule(d: Daemon, t: TimerId, start: int, period: Period, log: nat) {
    && d.Of(t) == Timer(period, true)
    && log <= |d.callbacks|
    && var times := Times(d.callbacks[log..], t);
       NotEarly(times, start, period) && Armed(d, t, Due(start, period, |times|), period)
  }

  lemma Fired(d: Daemon, u: TimerId, now: int, t: TimerId, log: nat)
    requires log <= |d.callbacks|
    ensures Times(Fire(d, u, now).callbacks[log..], t)
            == if u == t then Times(d.callbacks[log..], t) + [now] else Times(d.callbacks[log..], t)
  {
    assert Fire(d, u, now).callbacks[log..] == d.callbacks[log..] + [Callback(u, now)];
    TimesConcat(d.callbacks[log..], [Callback(u, now)], t);
    assert Times([Callback(u, now)], t) == if u == t then [now] else [];
  }

  lemma SendOrders(d: Daemon, c: Command, t: TimerId)
    ensures c.timer != t ==> Orders(Send(d, c).queue, t) == Orders(d.queue, t)
    ensures c.timer == t && Send(d, c).lost == d.lost ==> Orders(Send(d, c).queue, t) == Orders(d.queue, t) + [c]
  {
    OrdersConcat(d.queue, [c], t);
    assert Orders([c], t) == if c.timer == t then [c] else [];
  }

  lemma NextDue(times: seq<int>, start: int, period: Period, now: int)
    requires NotEarly(times, start, period) && now >= Due(start, period, |times|)
    ensures NotEarly(times + [now], start, period)
    ensures Due(start, period, |times + [now]|) == Due(start, period, |times|) + period
  {
    assert (|times| + 2) * period == (|times| + 1) * period + period;
  }

  /** A step that leaves one timer's share of the state alone leaves it on schedule. */
  predicate SameShare(d: Daemon, r: Daemon, t: TimerId, log: nat) {
    && r.Of(t) == d.Of(t) && log <= |d.callbacks| && log <= |r.callbacks|
    && Mine(r.current, t) == Mine(d.current, t) && Mine(r.overflow, t) == Mine(d.overflow, t)
    && Orders(r.queue, t) == Orders(d.queue, t)
    && Times(r.callbacks[log..], t) == Times(d.callbacks[log..], t)
  }

  lemma SameShareKeeps(d: Daemon, r: Daemon, t: TimerId, start: int, period: Period, log: nat)
    requires OnSchedule(d, t, start, period, log) && SameShare(d, r, t, log) && Epoch(r.at) == Epoch(d.at)
    ensures OnSchedule(r, t, start, period, log)
  {
  }

  /** A callback at or after the deadline, with the timer armed for the one after. */
  lemma NextShare(d: Daemon, r: Daemon, t: TimerId, start: int, period: Period, log: nat, now: int)
    requires OnSchedule(d, t, start, period, log) && r.Of(t) == d.Of(t) && log <= |r.callbacks|
    requires var times := Times(d.callbacks[log..], t);
             && Times(r.callbacks[log..], t) == times + [now]
             && now >= Due(start, period, |times|)
             && Armed(r, t, Due(start, period, |times|) + period, period)
    ensures OnSchedule(r, t, start, period, log)
  {
    NextDue(Times(d.callbacks[log..], t), start, period, now);
  }

  lemma HeadIsMine(s: seq<Entry>, t: TimerId)
    requires s != []
    ensures Mine(s, t) == if s[0].timer == t then [s[0].value] + Mine(s[1..], t) else Mine(s[1..], t)
  {
  }

  /** The epoch of an earlier time is not later, and an earlier epoch means an earlier time. */
  lemma EpochsOrder(a: int, b: int)
    ensures Epoch(a) < Epoch(b) ==> a < b
    ensures a <= b ==> Epoch(a) <= Epoch(b)
    ensures Epoch(a) == Epoch(b) ==> (a <= b <==> Residue(a) <= Residue(b))
  {
    AtSplit(a);
    AtSplit(b);
  }

  // ---------- expiry, one path after the other ----------

  lemma OursAtHead(d: Daemon, t: TimerId, due: int, period: Period)
    requires Armed(d, t, due, period) && d.current != [] && d.current[0].timer == t
    ensures d.current[0].value == Residue(due) && Mine(d.current[1..], t) == [] && Epoch(due) == Epoch(d.at)
    ensures Mine(d.overflow, t) == [] && Orders(d.queue, t) == []
  {
    HeadIsMine(d.current, t);
    var c := Mine(d.current, t);
    assert c == [d.current[0].value] + Mine(d.current[1..], t);
    assert c[0] == d.current[0].value && |c| == 1 + |Mine(d.current[1..], t)|;
  }

  /** Expiry of our timer while the lists are switched. */
  lemma {:induction false} ExpireOurs(d: Daemon, now: int, t: TimerId, start: int, period: Period, log: nat)
    requires OnSchedule(d, t, start, period, log) && d.current != [] && d.current[0].timer == t
    requires Epoch(d.at) < Epoch(now) && Expire(d, now).lost == d.lost
    ensures OnSchedule(Expire(d, now), t, start, period, log)
  {
    var e, due, r := d.current[0], Due(start, period, |Times(d.callbacks[log..], t)|), Expire(d, now);
    HeadIsMine(d.current, t);
    OursAtHead(d, t, due, period);
    EpochsOrder(due, now);
    WithinOneRevolution(due, period);
    var f := Fire(d.(current := d.current[1..]), t, now);
    Fired(d.(current := d.current[1..]), t, now, t, log);
    MineInsert(f.current, Entry(Plus(e.value, period), t), t);
    SendOrders(f, Start(t, e.value), t);
    assert due + period - period == due;
    NextShare(d, r, t, start, period, log, now);
  }

  /** ... and of any other one. */
  lemma {:induction false} ExpireOther(d: Daemon, now: int, t: TimerId, log: nat)
    requires log <= |d.callbacks| && d.current != [] && d.current[0].timer != t
    ensures SameShare(d, Expire(d, now), t, log) && Expire(d, now).at == d.at
  {
    var e := d.current[0];
    HeadIsMine(d.current, t);
    var f := Fire(d.(current := d.current[1..]), e.timer, now);
    Fired(d.(current := d.current[1..]), e.timer, now, t, log);
    MineInsert(f.current, Entry(Plus(e.value, d.Of(e.timer).period), e.timer), t);
    SendOrders(f, Start(e.timer, e.value), t);
  }

  lemma {:induction false} ExpireAllFrame(d: Daemon, now: int)
    ensures var r := ExpireAll(d, now);
            r.lost >= d.lost && r.at == d.at && r.last == d.last && r.timers == d.timers && r.capacity == d.capacity
    decreases Remaining(d.current)
  {
    if d.current != [] {
      ExpireShrinks(d, now);
      ExpireAllFrame(Expire(d, now), now);
    }
  }

  lemma {:induction false} ExpireAllKeeps(d: Daemon, now: int, t: TimerId, start: int, period: Period, log: nat)
    requires OnSchedule(d, t, start, period, log) && Epoch(d.at) < Epoch(now) && ExpireAll(d, now).lost == d.lost
    ensures OnSchedule(ExpireAll(d, now), t, start, period, log)
    decreases Remaining(d.current)
  {
    if d.current != [] {
      var n := Expire(d, now);
      ExpireShrinks(d, now);
      ExpireAllFrame(n, now);
      assert d.lost <= n.lost;
      if d.current[0].timer == t {
        ExpireOurs(d, now, t, start, period, log);
      } else {
        ExpireOther(d, now, t, log);
        SameShareKeeps(d, n, t, start, period, log);
      }
      ExpireAllKeeps(n, now, t, start, period, log);
    }
  }

  /** The switch catches up with the whole epoch: a timer that was filed in a list has been called back for every
      deadline of the old epoch when the switch is over, and is armed for one of a later epoch. */
  lemma {:induction false} SwitchCatchesUp(d: Daemon, now: int, t: TimerId, start: int, period: Period, log: nat)
    requires OnSchedule(d, t, start, period, log) && Epoch(d.at) < Epoch(now) && ExpireAll(d, now).lost == d.lost
    requires Orders(d.queue, t) == []
    ensures var r := ExpireAll(d, now);
            log <= |r.callbacks| && Epoch(Due(start, period, |Times(r.callbacks[log..], t)|)) > Epoch(d.at)
    decreases Remaining(d.current)
  {
    if d.current == [] {
      var due := Due(start, period, |Times(d.callbacks[log..], t)|);
      assert Armed(d, t, due, period);
    } else {
      var n := Expire(d, now);
      ExpireShrinks(d, now);
      ExpireAllFrame(n, now);
      assert d.lost <= n.lost;
      if d.current[0].timer == t {
        ExpireOurs(d, now, t, start, period, log);
        OursAfterExpiry(d, now, t, start, period, log);
        if Orders(n.queue, t) == [] {
          SwitchCatchesUp(n, now, t, start, period, log);
        } else {
          ExpireAllOthers(n, now, t, log);
        }
      } else {
        ExpireOther(d, now, t, log);
        SameShareKeeps(d, n, t, start, period, log);
        SwitchCatchesUp(n, now, t, start, period, log);
      }
    }
  }

  /** After its expiry our timer is in the list again, or its next deadline is in a later epoch. */
  lemma {:induction false} OursAfterExpiry(d: Daemon, now: int, t: TimerId, start: int, period: Period, log: nat)
    requires OnSchedule(d, t, start, period, log) && d.current != [] && d.current[0].timer == t
    requires Epoch(d.at) < Epoch(now) && Expire(d, now).lost == d.lost
    ensures var n := Expire(d, now);
            && log <= |n.callbacks|
            && (Orders(n.queue, t) != [] ==>
                  && Mine(n.current, t) == [] && Mine(n.overflow, t) == []
                  && Epoch(Due(start, period, |Times(n.callbacks[log..], t)|)) > Epoch(d.at))
  {
    var e, times := d.current[0], Times(d.callbacks[log..], t);
    var due := Due(start, period, |times|);
    OursAtHead(d, t, due, period);
    WithinOneRevolution(due, period);
    ExpireOurs(d, now, t, start, period, log);
    var taken := d.(current := d.current[1..]);
    Fired(taken, t, now, t, log);
    NextDueAfter(times, start, period, now);
  }

  lemma NextDueAfter(times: seq<int>, start: int, period: Period, now: int)
    ensures Due(start, period, |times + [now]|) == Due(start, period, |times|) + period
  {
    assert (|times| + 2) * period == (|times| + 1) * period + period;
  }

  /** Sampling the time, with or without a switch of the lists. */
  lemma {:induction false} SampleKeeps(d: Daemon, now: int, t: TimerId, start: int, period: Period, log: nat)
    requires OnSchedule(d, t, start, period, log) && d.last == Residue(d.at) && d.at <= now < d.at + MOD
    requires Sample(d, now).0.lost == d.lost
    ensures var (s, switched) := Sample(d, now);
            && OnSchedule(s, t, start, period, log)
            && s.last == Residue(s.at) && s.at == now
            && (switched <==> Epoch(now) > Epoch(d.at))
            && (!switched ==> s == d.(last := Residue(now), at := now))
  {
    WithinOneRevolution(d.at, now - d.at);
    if Residue(now) < d.last {
      ExpireAllFrame(d, now);
      ExpireAllKeeps(d, now, t, start, period, log);
    }
  }

  /** Sampling the time leaves a timer alone that is in no list. */
  lemma {:induction false} ExpireAllOthers(d: Daemon, now: int, t: TimerId, log: nat)
    requires log <= |d.callbacks| && Mine(d.current, t) == []
    ensures SameShare(d, ExpireAll(d, now), t, log)
    decreases Remaining(d.current)
  {
    if d.current != [] {
      var n := Expire(d, now);
      ExpireShrinks(d, now);
      ExpireAllFrame(n, now);
      HeadIsMine(d.current, t);
      ExpireOther(d, now, t, log);
      ExpireAllOthers(n, now, t, log);
    }
  }

  lemma {:induction false} SampleOthers(d: Daemon, now: int, t: TimerId, log: nat)
    requires log <= |d.callbacks| && Mine(d.current, t) == [] && Mine(d.overflow, t) == []
    ensures SameShare(d, Sample(d, now).0, t, log)
  {
    if Residue(now) < d.last {
      ExpireAllOthers(d, now, t, log);
    }
  }

  /** Filing another timer. */
  lemma InsertOther(d: Daemon, u: TimerId, expiry: Tick, now: Tick, command: Tick, t: TimerId)
    requires u != t
    ensures var r := Insert(d, u, expiry, now, command).0;
            && Mine(r.current, t) == Mine(d.current, t) && Mine(r.overflow, t) == Mine(d.overflow, t)
            && r == d.(current := r.current, overflow := r.overflow)
  {
    MineInsert(d.current, Entry(expiry, u), t);
    MineInsert(d.overflow, Entry(expiry, u), t);
  }

  /** A start command meets its purpose: it is less than one revolution old, or its age modulo one revolution
      reaches the period. */
  predicate InGoodTime(command: int, now: int, period: Period) {
    now < command + MOD || Residue(now - command) >= period
  }

  /** Filing our timer, for the deadline one period after a command of any age. */
  lemma InsertOurs(d: Daemon, t: TimerId, command: int, now: int, period: Period)
    requires Dormant(d, t) && d.Of(t).period == period && command <= now && d.at == now
    ensures Plus(Residue(command), period) == Residue(command + period)
    ensures var (r, late) := Insert(d, t, Residue(command + period), Residue(now), Residue(command));
            && (late ==> r == d && now >= command + period)
            && (now < command + MOD && now >= command + period ==> late)
            && r == d.(current := r.current, overflow := r.overflow)
            && (!late ==> (Armed(r, t, command + period, period) <==> now < command + MOD))
            && (late || now < command + MOD <==> InGoodTime(command, now, period))
  {
    FileClosedForm(period, command, now);
    AtSplit(now - command);
    WithinOneRevolution(command, period);
    MineInsert(d.current, Entry(Residue(command + period), t), t);
    MineInsert(d.overflow, Entry(Residue(command + period), t), t);
    EpochsOrder(command + period, now);
    EpochsOrder(now, command + period);
    if now < command + MOD {
      FileIsExact(period, command, now);
    }
  }

  // ---------- prvProcessTimerOrBlockTask ----------

  lemma {:induction false} ProcessOther(d: Daemon, now: int, t: TimerId, log: nat)
    requires log <= |d.callbacks| && d.current != [] && d.current[0].timer != t
    ensures SameShare(d, ProcessExpired(d, now), t, log) && ProcessExpired(d, now).at == d.at
  {
    var e := d.current[0];
    var taken := d.(current := d.current[1..]);
    HeadIsMine(d.current, t);
    var filed := Insert(taken, e.timer, Plus(e.value, d.Of(e.timer).period), Residue(now), e.value).0;
    InsertOther(taken, e.timer, Plus(e.value, d.Of(e.timer).period), Residue(now), e.value, t);
    SendOrders(filed, Start(e.timer, e.value), t);
    Fired(taken, e.timer, now, t, log);
    Fired(filed, e.timer, now, t, log);
    Fired(Send(filed, Start(e.timer, e.value)), e.timer, now, t, log);
  }

  lemma {:induction false} ProcessOurs(d: Daemon, now: int, t: TimerId, start: int, period: Period, log: nat)
    requires OnSchedule(d, t, start, period, log) && d.current != [] && d.current[0].timer == t
    requires d.at == now && d.current[0].value <= Residue(now) && ProcessExpired(d, now).lost == d.lost
    ensures OnSchedule(ProcessExpired(d, now), t, start, period, log)
  {
    var e, due := d.current[0], Due(start, period, |Times(d.callbacks[log..], t)|);
    var taken := d.(current := d.current[1..]);
    OursAtHead(d, t, due, period);
    EpochsOrder(due, now);
    AtSplit(due);
    AtSplit(now);
    InsertOurs(taken, t, due, now, period);
    assert now < due + MOD;
    var (filed, late) := Insert(taken, t, Residue(due + period), Residue(now), Residue(due));
    SendOrders(filed, Start(t, e.value), t);
    var sent := if late then Send(filed, Start(t, e.value)) else filed;
    Fired(sent, t, now, t, log);
    assert due + period - period == due;
    assert ProcessExpired(d, now) == Fire(sent, t, now);
    NextShare(d, ProcessExpired(d, now), t, start, period, log, now);
  }

  /** When the daemon may sample the time: in order, not before our timer was started, and less than one
      revolution after it last did. */
  predicate InTime(d: Daemon, now: int, start: int) {
    d.last == Residue(d.at) && d.at <= now < d.at + MOD && start <= now
  }

  lemma {:induction false} ProcessFrame(d: Daemon, now: int)
    requires d.current != []
    ensures ProcessExpired(d, now).lost >= d.lost
    ensures ProcessExpired(d, now).at == d.at && ProcessExpired(d, now).last == d.last
  {
  }

  lemma {:induction false} WakeKeeps(d: Daemon, now: int, t: TimerId, start: int, period: Period, log: nat)
    requires OnSchedule(d, t, start, period, log) && InTime(d, now, start) && Wake(d, now).0.lost == d.lost
    ensures var r := Wake(d, now).0; OnSchedule(r, t, start, period, log) && r.last == Residue(r.at) && r.at == now
  {
    var (s, switched) := Sample(d, now);
    SampleFrame(d, now);
    if !switched && d.current != [] && d.current[0].value <= Residue(now) {
      ProcessFrame(s, now);
      SampleKeeps(d, now, t, start, period, log);
      if d.current[0].timer == t {
        ProcessOurs(s, now, t, start, period, log);
      } else {
        ProcessOther(s, now, t, log);
        SameShareKeeps(s, ProcessExpired(s, now), t, start, period, log);
      }
    } else {
      SampleKeeps(d, now, t, start, period, log);
    }
  }

  lemma {:induction false} SampleFrame(d: Daemon, now: int)
    ensures var s := Sample(d, now).0;
            s.lost >= d.lost && s.at == now && s.last == Residue(now) && s.timers == d.timers
  {
    ExpireAllFrame(d, now);
  }

  // ---------- prvProcessReceivedCommands ----------

  /** The daemon with the first command and its timer taken out. */
  function Unlinked(d: Daemon): Daemon
    requires d.queue != []
  {
    var t := d.queue[0].timer;
    d.(queue := d.queue[1..], current := WithoutTimer(d.current, t), overflow := WithoutTimer(d.overflow, t))
  }

  lemma UnlinkedShare(d: Daemon, t: TimerId)
    requires d.queue != []
    ensures d.queue[0].timer != t ==>
              && Mine(Unlinked(d).current, t) == Mine(d.current, t)
                && Mine(Unlinked(d).overflow, t) == Mine(d.overflow, t)
              && Orders(Unlinked(d).queue, t) == Orders(d.queue, t)
    ensures d.queue[0].timer == t ==>
              && Mine(Unlinked(d).current, t) == [] && Mine(Unlinked(d).overflow, t) == []
              && Orders(d.queue, t) == [d.queue[0]] + Orders(Unlinked(d).queue, t)
  {
    MineWithout(d.current, d.queue[0].timer, t);
    MineWithout(d.overflow, d.queue[0].timer, t);
  }

  lemma {:induction false} ExecuteOther(d: Daemon, c: Command, now: int, t: TimerId, log: nat)
    requires log <= |d.callbacks| && c.timer != t
    ensures SameShare(d, Execute(d, c, now), t, log) && Execute(d, c, now).at == d.at
  {
    match c
    case Start(u, time) =>
      var expiry := Plus(time, d.Of(u).period);
      var filed := Insert(d, u, expiry, Residue(now), time).0;
      InsertOther(d, u, expiry, Residue(now), time, t);
      Fired(filed, u, now, t, log);
      SendOrders(Fire(filed, u, now), Start(u, expiry), t);
    case Stop(_) =>
    case ChangePeriod(u, p) =>
      var changed := d.(timers := d.timers[u := Timer(p, d.Of(u).autoReload)]);
      InsertOther(changed, u, Plus(Residue(now), p), Residue(now), Residue(now), t);
    case Delete(_) =>
  }

  lemma ExecuteFrame(d: Daemon, c: Command, now: int)
    ensures var r := Execute(d, c, now); r.lost >= d.lost && r.at == d.at && r.last == d.last
  {
  }

  /** The timer is armed for the same deadline as before, or has been called back for it, not early, and is
      armed for the next one. */
  predicate Progress(times: seq<int>, r: Daemon, t: TimerId, due: int, period: Period, log: nat, now: int) {
    && r.Of(t) == Timer(period, true) && log <= |r.callbacks|
    && var after := Times(r.callbacks[log..], t);
       || (after == times && Armed(r, t, due, period))
       || (after == times + [now] && now >= due && Armed(r, t, due + period, period))
  }

  /** Our own start command is carried out rightly, by filing for the same deadline or by a callback and a new
      command, exactly if it comes in good time. */
  lemma {:induction false} ExecuteOurs(d: Daemon, now: int, t: TimerId, due: int, period: Period, log: nat)
    requires d.Of(t) == Timer(period, true) && log <= |d.callbacks| && d.at == now && Dormant(d, t)
    requires due - period <= now && Execute(d, Start(t, Residue(due - period)), now).lost == d.lost
    ensures var r := Execute(d, Start(t, Residue(due - period)), now);
            if InGoodTime(due - period, now, period)
            then Progress(Times(d.callbacks[log..], t), r, t, due, period, log, now)
            else log <= |r.callbacks| && Times(r.callbacks[log..], t) == Times(d.callbacks[log..], t)
                 && !Armed(r, t, due, period)
  {
    InsertOurs(d, t, due - period, now, period);
    var (filed, late) := Insert(d, t, Residue(due), Residue(now), Residue(due - period));
    if late {
      Fired(d, t, now, t, log);
      SendOrders(Fire(d, t, now), Start(t, Residue(due)), t);
      assert due + period - period == due;
    }
  }

  lemma ProgressKeeps(times: seq<int>, r: Daemon, t: TimerId, start: int, period: Period, log: nat, now: int)
    requires NotEarly(times, start, period)
    requires Progress(times, r, t, Due(start, period, |times|), period, log, now)
    ensures OnSchedule(r, t, start, period, log)
  {
    if Times(r.callbacks[log..], t) != times {
      NextDue(times, start, period, now);
    }
  }

  /** A command of ours that is about to be received comes in good time. */
  ghost predicate Prompt(d: Daemon, now: int, t: TimerId, start: int, period: Period, log: nat)
    requires d.queue != [] && log <= |d.callbacks|
  {
    d.queue[0].timer == t ==>
      InGoodTime(Due(start, period, |Times(d.callbacks[log..], t)|) - period, now, period)
  }

  /** Callbacks are made in the order of time, and none after the last sample. */
  ghost predicate InOrder(d: Daemon) {
    && (forall i :: 0 <= i < |d.callbacks| ==> d.callbacks[i].now <= d.at)
    && (forall i, j :: 0 <= i < j < |d.callbacks| ==> d.callbacks[i].now <= d.callbacks[j].now)
  }

  lemma {:induction false} TimesWithin(log: seq<Callback>, t: TimerId, low: int, high: int)
    requires forall i :: 0 <= i < |log| ==> low <= log[i].now <= high
    ensures forall k :: 0 <= k < |Times(log, t)| ==> low <= Times(log, t)[k] <= high
  {
    if log != [] {
      TimesWithin(log[1..], t, low, high);
    }
  }

  lemma {:induction false} TimesInOrder(log: seq<Callback>, t: TimerId, high: int)
    requires forall i, j :: 0 <= i < j < |log| ==> log[i].now <= log[j].now
    requires forall i :: 0 <= i < |log| ==> log[i].now <= high
    ensures forall k, l :: 0 <= k < l < |Times(log, t)| ==> Times(log, t)[k] <= Times(log, t)[l]
  {
    if log != [] {
      TimesInOrder(log[1..], t, high);
      TimesWithin(log[1..], t, log[0].now, high);
    }
  }

  lemma LogInOrder(d: Daemon, t: TimerId, log: nat)
    requires InOrder(d) && log <= |d.callbacks|
    ensures var times := Times(d.callbacks[log..], t);
            && (forall k :: 0 <= k < |times| ==> times[k] <= d.at)
            && (forall k, l :: 0 <= k < l < |times| ==> times[k] <= times[l])
  {
    var s := d.callbacks[log..];
    forall i, j | 0 <= i < j < |s| ensures s[i].now <= s[j].now <= d.at {
      assert s[i] == d.callbacks[log + i] && s[j] == d.callbacks[log + j];
    }
    forall i | 0 <= i < |s| ensures s[i].now <= d.at {
      assert s[i] == d.callbacks[log + i];
    }
    TimesInOrder(s, t, d.at);
    if s != [] {
      TimesWithin(s, t, s[0].now, d.at);
    }
  }

  /** The time of a start command of ours lies in the past. */
  lemma CommandIsPast(d: Daemon, t: TimerId, start: int, period: Period, log: nat)
    requires InOrder(d) && log <= |d.callbacks| && NotEarly(Times(d.callbacks[log..], t), start, period)
    ensures var n := |Times(d.callbacks[log..], t)|; n > 0 ==> Due(start, period, n) - period <= d.at
  {
    var times := Times(d.callbacks[log..], t);
    LogInOrder(d, t, log);
    if times != [] {
      assert times[|times| - 1] >= start + |times| * period;
      assert (|times| + 1) * period == |times| * period + period;
    }
  }

  lemma {:induction false} ReceiveOther(d: Daemon, now: int, t: TimerId, start: int, period: Period, log: nat)
    requires OnSchedule(d, t, start, period, log) && InTime(d, now, start) && d.queue != [] && d.queue[0].timer != t
    requires Receive(d, now).lost == d.lost
    ensures OnSchedule(Receive(d, now), t, start, period, log)
  {
    var u := Unlinked(d);
    UnlinkedShare(d, t);
    SameShareKeeps(d, u, t, start, period, log);
    SampleFrame(u, now);
    var s := Sample(u, now).0;
    ExecuteFrame(s, d.queue[0], now);
    SampleKeeps(u, now, t, start, period, log);
    ExecuteOther(s, d.queue[0], now, t, log);
    SameShareKeeps(s, Execute(s, d.queue[0], now), t, start, period, log);
  }

  lemma HeadIsOurs(d: Daemon, t: TimerId, due: int, period: Period)
    requires Armed(d, t, due, period) && d.queue != [] && d.queue[0].timer == t
    ensures d.queue[0] == Start(t, Residue(due - period))
    ensures var u := Unlinked(d); Mine(u.current, t) == [] && Mine(u.overflow, t) == [] && Orders(u.queue, t) == []
  {
    UnlinkedShare(d, t);
    assert Orders(d.queue, t)[0] == d.queue[0];
    assert |Orders(d.queue, t)| == 1 + |Orders(Unlinked(d).queue, t)|;
  }

  /** Once our start command and the timer are unlinked, sampling the time leaves us alone. */
  lemma {:induction false} ReceiveProgress(d: Daemon, now: int, t: TimerId, due: int, period: Period, log: nat)
    requires Armed(d, t, due, period) && d.queue != [] && d.queue[0].timer == t && log <= |d.callbacks|
    requires d.Of(t) == Timer(period, true) && due - period <= now && Receive(d, now).lost == d.lost
    ensures var r, times := Receive(d, now), Times(d.callbacks[log..], t);
            if InGoodTime(due - period, now, period) then Progress(times, r, t, due, period, log, now)
            else log <= |r.callbacks| && Times(r.callbacks[log..], t) == times && !Armed(r, t, due, period)
  {
    var u := Unlinked(d);
    HeadIsOurs(d, t, due, period);
    SampleFrame(u, now);
    ExecuteFrame(Sample(u, now).0, d.queue[0], now);
    SampleOthers(u, now, t, log);
    ExecuteOurs(Sample(u, now).0, now, t, due, period, log);
  }

  /** Receiving our own start command keeps us on schedule exactly if it comes in good time. */
  lemma {:induction false} ReceiveOurs(d: Daemon, now: int, t: TimerId, start: int, period: Period, log: nat)
    requires OnSchedule(d, t, start, period, log) && InTime(d, now, start) && InOrder(d)
    requires d.queue != [] && d.queue[0].timer == t && Receive(d, now).lost == d.lost
    ensures OnSchedule(Receive(d, now), t, start, period, log) <==> Prompt(d, now, t, start, period, log)
  {
    ReceiveOursProgress(d, now, t, start, period, log);
    if Prompt(d, now, t, start, period, log) {
      ProgressKeeps(Times(d.callbacks[log..], t), Receive(d, now), t, start, period, log, now);
    } else {
      Unarmed(Receive(d, now), t, start, period, log);
    }
  }

  lemma {:induction false} ReceiveOursProgress(d: Daemon, now: int, t: TimerId, start: int, period: Period, log: nat)
    requires OnSchedule(d, t, start, period, log) && InTime(d, now, start) && InOrder(d)
    requires d.queue != [] && d.queue[0].timer == t && Receive(d, now).lost == d.lost
    ensures var r, times := Receive(d, now), Times(d.callbacks[log..], t);
            var due := Due(start, period, |times|);
            if Prompt(d, now, t, start, period, log) then Progress(times, r, t, due, period, log, now)
            else log <= |r.callbacks| && Times(r.callbacks[log..], t) == times && !Armed(r, t, due, period)
  {
    CommandIsPast(d, t, start, period, log);
    ReceiveProgress(d, now, t, Due(start, period, |Times(d.callbacks[log..], t)|), period, log);
  }

  lemma Unarmed(r: Daemon, t: TimerId, start: int, period: Period, log: nat)
    requires log <= |r.callbacks| && !Armed(r, t, Due(start, period, |Times(r.callbacks[log..], t)|), period)
    ensures !OnSchedule(r, t, start, period, log)
  {
  }

  // ---------- the order of callbacks and of the lists ----------

  /** Both lists stand in expiry order. */
  ghost predicate ListsSorted(d: Daemon) {
    Sorted(Values(d.current)) && Sorted(Values(d.overflow))
  }

  /** The callbacks made between `d` and `r` were made at `now`. */
  ghost predicate CallsAt(d: Daemon, r: Daemon, now: int) {
    && |d.callbacks| <= |r.callbacks| && r.callbacks[..|d.callbacks|] == d.callbacks
    && (forall i :: |d.callbacks| <= i < |r.callbacks| ==> r.callbacks[i].now == now)
  }

  lemma CallsAtTwice(d: Daemon, m: Daemon, r: Daemon, now: int)
    requires CallsAt(d, m, now) && CallsAt(m, r, now)
    ensures CallsAt(d, r, now)
  {
    assert r.callbacks[..|d.callbacks|] == r.callbacks[..|m.callbacks|][..|d.callbacks|];
    forall i | |d.callbacks| <= i < |r.callbacks| ensures r.callbacks[i].now == now {
      if i < |m.callbacks| {
        assert r.callbacks[i] == r.callbacks[..|m.callbacks|][i];
      }
    }
  }

  lemma CallsAtInOrder(d: Daemon, r: Daemon, now: int)
    requires InOrder(d) && CallsAt(d, r, now) && d.at <= now && r.at == now
    ensures InOrder(r)
  {
    forall i | 0 <= i < |r.callbacks| ensures r.callbacks[i].now <= now
      ensures i < |d.callbacks| ==> r.callbacks[i] == d.callbacks[i]
    {
      if i < |d.callbacks| {
        assert r.callbacks[i] == r.callbacks[..|d.callbacks|][i];
      }
    }
  }

  lemma {:induction false} InsertEntrySorted(s: seq<Entry>, e: Entry)
    requires Sorted(Values(s))
    ensures Sorted(Values(InsertEntry(s, e)))
  {
    var p := InsertPos(Values(s), e.value);
    InsertPosStable(Values(s), e.value);
    PutAt(s, p, e);
    PutAt(Values(s), p, e.value);
    assert Values(InsertEntry(s, e)) == Put(Values(s), p, e.value);
  }

  lemma {:induction false} WithoutTimerSorted(s: seq<Entry>, t: TimerId)
    requires Sorted(Values(s))
    ensures Sorted(Values(WithoutTimer(s, t)))
    ensures forall e :: e in WithoutTimer(s, t) ==> e in s
  {
    if s != [] {
      TailSorted(s);
      WithoutTimerSorted(s[1..], t);
      var r := WithoutTimer(s[1..], t);
      if s[0].timer != t {
        ConsSorted(s[0], r);
      }
    }
  }

  lemma TailSorted(s: seq<Entry>)
    requires Sorted(Values(s)) && s != []
    ensures Sorted(Values(s[1..])) && forall e :: e in s[1..] ==> s[0].value <= e.value
  {
    assert Values(s[1..]) == Values(s)[1..];
    forall e | e in s[1..] ensures s[0].value <= e.value {
      var i :| 0 <= i < |s[1..]| && s[1..][i] == e;
      assert Values(s)[0] <= Values(s)[i + 1];
    }
  }

  lemma ConsSorted(e: Entry, s: seq<Entry>)
    requires Sorted(Values(s)) && forall x :: x in s ==> e.value <= x.value
    ensures Sorted(Values([e] + s))
  {
    var v := Values([e] + s);
    forall i, j | 0 <= i < j < |v| ensures v[i] <= v[j] {
      assert v[j] == Values(s)[j - 1] && s[j - 1] in s;
      if i > 0 {
        assert v[i] == Values(s)[i - 1];
      }
    }
  }

  lemma {:induction false} ExpireTidy(d: Daemon, now: int)
    requires d.current != [] && ListsSorted(d)
    ensures ListsSorted(Expire(d, now)) && CallsAt(d, Expire(d, now), now)
  {
    var e := d.current[0];
    TailSorted(d.current);
    InsertEntrySorted(d.current[1..], Entry(Plus(e.value, d.Of(e.timer).period), e.timer));
  }

  lemma {:induction false} ExpireAllTidy(d: Daemon, now: int)
    requires ListsSorted(d)
    ensures ListsSorted(ExpireAll(d, now)) && CallsAt(d, ExpireAll(d, now), now)
    decreases Remaining(d.current)
  {
    if d.current != [] {
      ExpireTidy(d, now);
      ExpireShrinks(d, now);
      ExpireAllTidy(Expire(d, now), now);
      CallsAtTwice(d, Expire(d, now), ExpireAll(d, now), now);
    }
  }

  lemma {:induction false} SampleTidy(d: Daemon, now: int)
    requires ListsSorted(d)
    ensures ListsSorted(Sample(d, now).0) && CallsAt(d, Sample(d, now).0, now)
  {
    ExpireAllTidy(d, now);
  }

  lemma InsertTidy(d: Daemon, t: TimerId, expiry: Tick, now: Tick, command: Tick)
    requires ListsSorted(d)
    ensures var r := Insert(d, t, expiry, now, command).0; ListsSorted(r) && r.callbacks == d.callbacks
  {
    InsertEntrySorted(d.current, Entry(expiry, t));
    InsertEntrySorted(d.overflow, Entry(expiry, t));
  }

  lemma {:induction false} ProcessTidy(d: Daemon, now: int)
    requires d.current != [] && ListsSorted(d)
    ensures ListsSorted(ProcessExpired(d, now)) && CallsAt(d, ProcessExpired(d, now), now)
  {
    var e := d.current[0];
    TailSorted(d.current);
    InsertTidy(d.(current := d.current[1..]), e.timer, Plus(e.value, d.Of(e.timer).period), Residue(now), e.value);
  }

  lemma {:induction false} ExecuteTidy(d: Daemon, c: Command, now: int)
    requires ListsSorted(d)
    ensures ListsSorted(Execute(d, c, now)) && CallsAt(d, Execute(d, c, now), now)
  {
    if c.Start? {
      InsertTidy(d, c.timer, Plus(c.time, d.Of(c.timer).period), Residue(now), c.time);
    } else if c.ChangePeriod? {
      InsertTidy(d.(timers := d.timers[c.timer := Timer(c.period, d.Of(c.timer).autoReload)]), c.timer,
                 Plus(Residue(now), c.period), Residue(now), Residue(now));
    }
  }

  // ---------- runs ----------

  datatype Step =
    | Make(timer: TimerId, block: Timer) // xTimerCreate
    | Ask(command: Command)     // any task sends a command
    | ReceiveStep(now: int)     // one round of prvProcessReceivedCommands
    | WakeStep(now: int)        // prvProcessTimerOrBlockTask

  /** Nobody commands timer `t`, and time is sampled within every revolution. */
  ghost predicate Allowed(d: Daemon, s: Step, t: TimerId, start: int) {
    match s
    case Make(u, _) => u != t && u !in d.timers
    case Ask(c) => c.timer != t
    case ReceiveStep(now) => d.queue != [] && InTime(d, now, start)
    case WakeStep(now) => InTime(d, now, start)
  }

  /** Our own start commands come in good time. */
  ghost predicate Punctual(d: Daemon, s: Step, t: TimerId, start: int, period: Period, log: nat) {
    s.ReceiveStep? && d.queue != [] && log <= |d.callbacks| ==> Prompt(d, s.now, t, start, period, log)
  }

  predicate Defined(d: Daemon, s: Step) {
    s.ReceiveStep? ==> d.queue != []
  }

  function Apply(d: Daemon, s: Step): Daemon
    requires Defined(d, s)
  {
    match s
    case Make(t, block) => d.(timers := d.timers[t := block])
    case Ask(c) => Send(d, c)
    case ReceiveStep(now) => Receive(d, now)
    case WakeStep(now) => Wake(d, now).0
  }

  ghost predicate Tidy(d: Daemon) {
    InOrder(d) && ListsSorted(d)
  }

  lemma {:induction false} WakeTidy(d: Daemon, now: int)
    requires Tidy(d) && d.at <= now
    ensures Tidy(Wake(d, now).0) && Wake(d, now).0.lost >= d.lost
  {
    var (s, switched) := Sample(d, now);
    var r := Wake(d, now).0;
    SampleTidy(d, now);
    SampleFrame(d, now);
    if !switched && d.current != [] && d.current[0].value <= Residue(now) {
      ProcessTidy(s, now);
      ProcessFrame(s, now);
      CallsAtTwice(d, s, r, now);
    }
    CallsAtInOrder(d, r, now);
  }

  lemma {:induction false} ReceiveTidy(d: Daemon, now: int)
    requires Tidy(d) && d.queue != [] && d.at <= now
    ensures Tidy(Receive(d, now)) && Receive(d, now).lost >= d.lost
    ensures Receive(d, now).at == now && Receive(d, now).last == Residue(now)
  {
    var u, c := Unlinked(d), d.queue[0];
    WithoutTimerSorted(d.current, c.timer);
    WithoutTimerSorted(d.overflow, c.timer);
    SampleTidy(u, now);
    SampleFrame(u, now);
    var s := Sample(u, now).0;
    ExecuteTidy(s, c, now);
    ExecuteFrame(s, c, now);
    CallsAtTwice(u, s, Execute(s, c, now), now);
    CallsAtInOrder(d, Receive(d, now), now);
  }

  /** A step leaves timer `t` on schedule exactly if it is not the receipt of a start command of `t` that
      comes too late. */
  lemma {:induction false} StepKeepsExactlyIf(d: Daemon, s: Step, t: TimerId, start: int, period: Period, log: nat)
    requires OnSchedule(d, t, start, period, log) && Tidy(d) && Allowed(d, s, t, start)
    requires d.last == Residue(d.at) && Apply(d, s).lost == d.lost
    ensures OnSchedule(Apply(d, s), t, start, period, log) <==> Punctual(d, s, t, start, period, log)
    ensures Tidy(Apply(d, s)) && Apply(d, s).last == Residue(Apply(d, s).at)
  {
    if s.Make? {
      SameShareKeeps(d, Apply(d, s), t, start, period, log);
    } else if s.Ask? {
      SendOrders(d, s.command, t);
      SameShareKeeps(d, Send(d, s.command), t, start, period, log);
    } else if s.ReceiveStep? {
      ReceiveTidy(d, s.now);
      if d.queue[0].timer == t {
        ReceiveOurs(d, s.now, t, start, period, log);
      } else {
        ReceiveOther(d, s.now, t, start, period, log);
      }
    } else {
      WakeTidy(d, s.now);
      WakeKeeps(d, s.now, t, start, period, log);
    }
  }

  ghost predicate Possible(d: Daemon, run: seq<Step>, t: TimerId, start: int)
    decreases |run|
  {
    run == [] || (Allowed(d, run[0], t, start) && Possible(Apply(d, run[0]), run[1..], t, start))
  }

  ghost predicate AllPunctual(d: Daemon, run: seq<Step>, t: TimerId, start: int, period: Period, log: nat)
    requires Possible(d, run, t, start)
    decreases |run|
  {
    run != [] ==>
      && Punctual(d, run[0], t, start, period, log)
      && AllPunctual(Apply(d, run[0]), run[1..], t, start, period, log)
  }

  ghost predicate AlwaysOnSchedule(d: Daemon, run: seq<Step>, t: TimerId, start: int, period: Period, log: nat)
    requires Possible(d, run, t, start)
    decreases |run|
  {
    && OnSchedule(d, t, start, period, log)
    && (run != [] ==> AlwaysOnSchedule(Apply(d, run[0]), run[1..], t, start, period, log))
  }

  function After(d: Daemon, run: seq<Step>): Daemon
    decreases |run|
  {
    if run == [] || !Defined(d, run[0]) then d else After(Apply(d, run[0]), run[1..])
  }

  lemma StepLoses(d: Daemon, s: Step)
    requires Defined(d, s)
    ensures Apply(d, s).lost >= d.lost
  {
    if s.ReceiveStep? {
      SampleFrame(Unlinked(d), s.now);
      ExecuteFrame(Sample(Unlinked(d), s.now).0, d.queue[0], s.now);
    } else if s.WakeStep? {
      SampleFrame(d, s.now);
      if d.current != [] && !Sample(d, s.now).1 {
        ProcessFrame(Sample(d, s.now).0, s.now);
      }
    }
  }

  lemma {:induction false} RunLoses(d: Daemon, run: seq<Step>)
    ensures After(d, run).lost >= d.lost
    decreases |run|
  {
    if run != [] && Defined(d, run[0]) {
      StepLoses(d, run[0]);
      RunLoses(Apply(d, run[0]), run[1..]);
    }
  }

  /** Over whole runs: the timer is on schedule throughout exactly if all its start commands come in good
      time. */
  lemma {:induction false} RunKeepsExactlyIf(d: Daemon, run: seq<Step>, t: TimerId, start: int, period: Period,
                                            log: nat)
    requires OnSchedule(d, t, start, period, log) && Tidy(d) && d.last == Residue(d.at)
    requires Possible(d, run, t, start) && After(d, run).lost == d.lost
    ensures AlwaysOnSchedule(d, run, t, start, period, log) <==> AllPunctual(d, run, t, start, period, log)
    decreases |run|
  {
    if run != [] {
      var n := Apply(d, run[0]);
      StepLoses(d, run[0]);
      RunLoses(n, run[1..]);
      StepKeepsExactlyIf(d, run[0], t, start, period, log);
      if OnSchedule(n, t, start, period, log) {
        RunKeepsExactlyIf(n, run[1..], t, start, period, log);
      }
    }
  }

  lemma {:induction false} RunKeeps(d: Daemon, run: seq<Step>, t: TimerId, start: int, period: Period, log: nat)
    requires OnSchedule(d, t, start, period, log) && Tidy(d) && d.last == Residue(d.at)
    requires Possible(d, run, t, start) && AllPunctual(d, run, t, start, period, log) && After(d, run).lost == d.lost
    ensures OnSchedule(After(d, run), t, start, period, log) && Tidy(After(d, run))
    ensures After(d, run).last == Residue(After(d, run).at)
    decreases |run|
  {
    if run != [] {
      var n := Apply(d, run[0]);
      StepLoses(d, run[0]);
      RunLoses(n, run[1..]);
      StepKeepsExactlyIf(d, run[0], t, start, period, log);
      RunKeeps(n, run[1..], t, start, period, log);
    }
  }

  // ---------- the results ----------

  /** Timer `t`, dormant until now, is started at ideal time `start`: its command is in the queue. */
  ghost predicate JustStarted(d: Daemon, t: TimerId, start: int, period: Period) {
    && d.Of(t) == Timer(period, true)
    && Mine(d.current, t) == [] && Mine(d.overflow, t) == [] && Orders(d.queue, t) == [Start(t, Residue(start))]
    && Tidy(d) && d.last == Residue(d.at)
  }

  lemma JustStartedOnSchedule(d: Daemon, t: TimerId, start: int, period: Period)
    requires JustStarted(d, t, start, period)
    ensures OnSchedule(d, t, start, period, |d.callbacks|)
  {
    assert d.callbacks[|d.callbacks|..] == [];
    assert Due(start, period, 0) - period == start;
  }

  /** Auto-reload is exact, through expiry, list switches and catch-up alike: in every run without another
      command for the timer, with no command lost, time sampled within every revolution and the timer's own
      start commands in good time, the k-th callback is made for the deadline start + k * period and not
      before it, the callbacks come in that order, and the next deadline is kept in exactly one place. */
  lemma {:induction false} AutoReloadIsExact(d: Daemon, run: seq<Step>, t: TimerId, start: int, period: Period)
    requires JustStarted(d, t, start, period) && Possible(d, run, t, start) && After(d, run).lost == d.lost
    requires AllPunctual(d, run, t, start, period, |d.callbacks|)
    ensures var r := After(d, run);
            && |d.callbacks| <= |r.callbacks|
            && var times := Times(r.callbacks[|d.callbacks|..], t);
               && (forall k :: 0 <= k < |times| ==> start + (k + 1) * period <= times[k] <= r.at)
               && (forall k, l :: 0 <= k < l < |times| ==> times[k] <= times[l])
               && Armed(r, t, start + (|times| + 1) * period, period)
  {
    JustStartedOnSchedule(d, t, start, period);
    RunKeeps(d, run, t, start, period, |d.callbacks|);
    LogInOrder(After(d, run), t, |d.callbacks|);
  }

  /** Whether a run is exact throughout depends on nothing else. */
  lemma {:induction false} AutoReloadIsExactExactlyIf(d: Daemon, run: seq<Step>, t: TimerId, start: int, period: Period)
    requires JustStarted(d, t, start, period) && Possible(d, run, t, start) && After(d, run).lost == d.lost
    ensures AlwaysOnSchedule(d, run, t, start, period, |d.callbacks|)
            <==> AllPunctual(d, run, t, start, period, |d.callbacks|)
  {
    JustStartedOnSchedule(d, t, start, period);
    RunKeepsExactlyIf(d, run, t, start, period, |d.callbacks|);
  }

  lemma {:induction false} MineIsThere(s: seq<Entry>, t: TimerId)
    ensures forall v :: v in Mine(s, t) ==> Entry(v, t) in s
  {
    if s != [] {
      MineIsThere(s[1..], t);
    }
  }

  /** When the daemon finds nothing to do, the deadline it keeps lies ahead. */
  lemma {:induction false} IdleMeansAhead(d: Daemon, now: int, t: TimerId, due: int, period: Period)
    requires Armed(d, t, due, period) && ListsSorted(d) && d.at == now && Orders(d.queue, t) == []
    requires d.current == [] || d.current[0].value > Residue(now)
    ensures due > now
  {
    EpochsOrder(due, now);
    EpochsOrder(now, due);
    if Mine(d.current, t) != [] {
      MineIsThere(d.current, t);
      assert Residue(due) in Mine(d.current, t);
      TailSorted(d.current);
    }
  }

  /** ... and then no callback is owed: there have been exactly as many as deadlines have passed. */
  lemma {:induction false} IdleIsCaughtUp(d: Daemon, run: seq<Step>, now: int, t: TimerId, start: int, period: Period)
    requires JustStarted(d, t, start, period) && Possible(d, run, t, start) && After(d, run).lost == d.lost
    requires AllPunctual(d, run, t, start, period, |d.callbacks|)
    requires var r := After(d, run); InTime(r, now, start) && Wake(r, now).1 && Orders(r.queue, t) == []
    ensures var r := After(d, run);
            |d.callbacks| <= |r.callbacks| && |Times(r.callbacks[|d.callbacks|..], t)| == (now - start) / period
  {
    var r, log := After(d, run), |d.callbacks|;
    AutoReloadIsExact(d, run, t, start, period);
    JustStartedOnSchedule(d, t, start, period);
    RunKeeps(d, run, t, start, period, log);
    SampleKeeps(r, now, t, start, period, log);
    var n := |Times(r.callbacks[log..], t)|;
    IdleMeansAhead(Sample(r, now).0, now, t, Due(start, period, n), period);
    LastCallbackPassed(Times(r.callbacks[log..], t), start, period, now);
    PassedDeadlines(now - start, period, n);
  }

  lemma LastCallbackPassed(times: seq<int>, start: int, period: Period, now: int)
    requires NotEarly(times, start, period) && start <= now && forall k :: 0 <= k < |times| ==> times[k] <= now
    ensures |times| * period <= now - start
  {
    if times != [] {
      assert times[|times| - 1] >= start + |times| * period;
    }
  }

  lemma ScaledOrder(a: int, b: int, p: int)
    requires a <= b && 0 < p
    ensures a * p <= b * p
  {
    assert (b - a) * p >= 0;
  }

  lemma PassedDeadlines(x: int, p: int, n: nat)
    requires 0 < p && n * p <= x < (n + 1) * p
    ensures x / p == n
  {
    var q := x / p;
    assert q * p <= x < (q + 1) * p;
    if q < n {
      ScaledOrder(q + 1, n, p);
    } else if q > n {
      ScaledOrder(n + 1, q, p);
    }
  }

  // ---------- a run that goes wrong ----------

  /** At tick 5, with a command for timer 1 queued ahead of the start command of timer 2, which has the
      longest period there is. */
  function LateStart(): Daemon {
    Daemon([], [], [Stop(1), Start(2, 5)], 2, 0, map[1 := Timer(1, false), 2 := Timer(MAX_DELAY, true)], 5, 5, [])
  }

  /** The run from the creation of the two timers to there. */
  lemma {:induction false} LateStartIsReached()
    ensures After(NO_TIMERS.(capacity := 2), [Make(1, Timer(1, false)), Make(2, Timer(MAX_DELAY, true)), WakeStep(5),
                                              Ask(Stop(1)), Ask(Start(2, 5))]) == LateStart()
  {
    var run := [Make(1, Timer(1, false)), Make(2, Timer(MAX_DELAY, true)), WakeStep(5), Ask(Stop(1)), Ask(Start(2, 5))];
    AtParts(0, 5);
    var d1 := NO_TIMERS.(capacity := 2, timers := map[1 := Timer(1, false)]);
    var d2 := d1.(timers := map[1 := Timer(1, false), 2 := Timer(MAX_DELAY, true)]);
    assert Apply(NO_TIMERS.(capacity := 2), run[0]) == d1 && Apply(d1, run[1]) == d2;
    var d3 := d2.(last := 5, at := 5);
    assert Wake(d2, 5).0 == d3;
    var d4 := d3.(queue := [Stop(1)]);
    assert Apply(d3, run[3]) == d4 && Apply(d4, run[4]) == LateStart();
    assert run[1..][1..][1..][1..][1..] == [];
    assert After(d4, [run[4]]) == LateStart();
    assert After(d3, [run[3], run[4]]) == After(d4, [run[4]]);
    assert After(d2, [run[2], run[3], run[4]]) == After(d3, [run[3], run[4]]);
    assert After(d1, [run[1], run[2], run[3], run[4]]) == After(d2, [run[2], run[3], run[4]]);
    assert run[1..] == [run[1], run[2], run[3], run[4]];
  }

  /** The first command is received just before the tick count wraps, the second one just after tick 5 of the
      next epoch; then the daemon looks for expired timers. */
  function LateRun(): seq<Step> {
    [ReceiveStep(MOD - 1), ReceiveStep(MOD + 10), WakeStep(MOD + 10)]
  }

  lemma LateSteps()
    ensures var d1 := Receive(LateStart(), MOD - 1);
            && d1 == LateStart().(queue := [Start(2, 5)], last := MOD - 1, at := MOD - 1)
            && Receive(d1, MOD + 10) == LateStart().(queue := [], overflow := [Entry(4, 2)], last := 10, at := MOD + 10)
            && Wake(Receive(d1, MOD + 10), MOD + 10) == (Receive(d1, MOD + 10), true)
  {
    AtParts(0, MOD - 1);
    AtParts(1, 10);
    var d1 := Receive(LateStart(), MOD - 1);
    assert Unlinked(LateStart()) == LateStart().(queue := [Start(2, 5)]);
    assert Unlinked(d1) == d1.(queue := []);
    assert InsertEntry([], Entry(4, 2)) == [Entry(4, 2)];
  }

  /** Where the run ends: with the timer filed under tick 4 of the epoch after the current one. */
  function LateEnd(): Daemon {
    LateStart().(queue := [], overflow := [Entry(4, 2)], last := 10, at := MOD + 10)
  }

  lemma {:induction false} LateRunEnds()
    ensures After(LateStart(), LateRun()) == LateEnd() && Possible(LateStart(), LateRun(), 2, 5)
    ensures Wake(LateEnd(), MOD + 10) == (LateEnd(), true)
  {
    var d, run := LateStart(), LateRun();
    LateSteps();
    AtParts(0, 5);
    AtParts(0, MOD - 1);
    assert run[1..] == [ReceiveStep(MOD + 10), WakeStep(MOD + 10)];
    assert run[1..][1..] == [WakeStep(MOD + 10)] && run[1..][1..][1..] == [];
  }

  lemma LateEndIsOffSchedule()
    ensures !OnSchedule(LateEnd(), 2, 5, MAX_DELAY, 0)
  {
    AtParts(1, 10);
    AtParts(1, 4);
    assert Mine(LateEnd().overflow, 2) == [4];
  }

  /** Every sample is taken within one revolution of the one before, and yet the daemon ends up asleep with the
      timer filed one revolution late, its deadline passed and its callback owed. */
  lemma {:induction false} SampledInTimeYetLate()
    ensures var d, run, period: Period := LateStart(), LateRun(), MAX_DELAY;
            var r := After(d, run);
            && JustStarted(d, 2, 5, period) && Possible(d, run, 2, 5) && r.lost == d.lost
            && r.at >= 5 + period && r.callbacks == [] && Wake(r, r.at).1
            && !OnSchedule(r, 2, 5, period, 0) && !AllPunctual(d, run, 2, 5, period, 0)
  {
    LateIsStarted();
    LateRunEnds();
    LateEndIsOffSchedule();
    if AllPunctual(LateStart(), LateRun(), 2, 5, MAX_DELAY, 0) {
      JustStartedOnSchedule(LateStart(), 2, 5, MAX_DELAY);
      RunKeeps(LateStart(), LateRun(), 2, 5, MAX_DELAY, 0);
      assert false;
    }
  }

  lemma LateIsStarted()
    ensures JustStarted(LateStart(), 2, 5, MAX_DELAY)
  {
    AtParts(0, 5);
    assert Orders(LateStart().queue, 2) == [Start(2, 5)];
  }

  // ---------- how long the daemon blocks ----------

  /** While the tick count shows 0, no timer is in the overflow list. */
  predicate ZeroIsClear(d: Daemon) {
    d.last == 0 ==> d.overflow == []
  }

  /** At tick 0 nothing is filed in the overflow list: an expiry at 0 has been reached. */
  lemma NothingOverflowsAtZero(d: Daemon, t: TimerId, command: Tick)
    ensures Insert(d, t, Plus(command, d.Of(t).period), 0, command).0.overflow == d.overflow
  {
  }

  lemma {:induction false} SampleClear(d: Daemon, now: int)
    requires ZeroIsClear(d)
    ensures ZeroIsClear(Sample(d, now).0) && Sample(d, now).0.last == Residue(now)
  {
  }

  lemma {:induction false} StepClear(d: Daemon, s: Step)
    requires ZeroIsClear(d) && Defined(d, s)
    ensures ZeroIsClear(Apply(d, s))
  {
    match s
    case Make(_, _) =>
    case Ask(_) =>
    case ReceiveStep(now) =>
      var u, c := Unlinked(d), d.queue[0];
      SampleClear(u, now);
      ExecuteClear(Sample(u, now).0, c, now);
    case WakeStep(now) =>
      SampleClear(d, now);
      if d.current != [] && !Sample(d, now).1 {
        ProcessClear(Sample(d, now).0, now);
      }
  }

  lemma {:induction false} ProcessClear(d: Daemon, now: int)
    requires ZeroIsClear(d) && d.current != [] && d.last == Residue(now)
    ensures ZeroIsClear(ProcessExpired(d, now))
  {
    var e := d.current[0];
    NothingOverflowsAtZero(d.(current := d.current[1..]), e.timer, e.value);
  }

  lemma {:induction false} ExecuteClear(d: Daemon, c: Command, now: int)
    requires ZeroIsClear(d) && d.last == Residue(now)
    ensures ZeroIsClear(Execute(d, c, now))
  {
    match c
    case Start(t, time) => NothingOverflowsAtZero(d, t, time);
    case ChangePeriod(t, period) =>
      NothingOverflowsAtZero(d.(timers := d.timers[t := Timer(period, d.Of(t).autoReload)]), t, Residue(now));
    case _ =>
  }

  lemma {:induction false} RunClear(d: Daemon, run: seq<Step>)
    requires ZeroIsClear(d)
    ensures ZeroIsClear(After(d, run))
    decreases |run|
  {
    if run != [] && Defined(d, run[0]) {
      StepClear(d, run[0]);
      RunClear(Apply(d, run[0]), run[1..]);
    }
  }

  /** The block time that prvProcessTimerOrBlockTask passes on. */
  function BlockTicks(d: Daemon, now: int): Tick {
    Minus(if d.current == [] then 0 else d.current[0].value, Residue(now))
  }

  const NO_TIMERS := Daemon([], [], [], 0, 0, map[], 0, 0, [])

  /** Whatever the tasks of the system ask of the daemon and whenever it samples the time: when it blocks with a
      timer in either list, it blocks for at least one tick, and at most until the first expiry or the wrap. */
  lemma {:induction false} DaemonBlocksForSomeTime(capacity: nat, run: seq<Step>, now: int)
    requires Wake(After(NO_TIMERS.(capacity := capacity), run), now).1
    ensures var d := After(NO_TIMERS.(capacity := capacity), run);
            && (d.current != [] || d.overflow != [] ==> BlockTicks(d, now) > 0)
            && (d.current != [] ==> Residue(now) + BlockTicks(d, now) == d.current[0].value)
  {
    RunClear(NO_TIMERS.(capacity := capacity), run);
    StepClear(After(NO_TIMERS.(capacity := capacity), run), WakeStep(now));
  }

  /** The daemon blocks exactly if it has not just switched the lists and no timer of the current one is due. */
  lemma {:induction false} DaemonBlocksExactlyIf(d: Daemon, now: int)
    requires Tidy(d) && d.last == Residue(d.at) && d.at <= now < d.at + MOD
    ensures Wake(d, now).1 <==>
              Epoch(now) == Epoch(d.at) && forall e :: e in d.current ==> e.value > Residue(now)
  {
    WithinOneRevolution(d.at, now - d.at);
    if d.current != [] {
      TailSorted(d.current);
      assert d.current[0] in d.current;
    }
  }

  // ---------- timers that are stopped ----------

  /** A stop or delete command takes the timer out before anything else, be it due in the very same round. */
  lemma {:induction false} StopSilences(d: Daemon, now: int, t: TimerId)
    requires d.queue != [] && d.queue[0] in {Stop(t), Delete(t)} && Orders(d.queue[1..], t) == []
    ensures Dormant(Receive(d, now), t) && |d.callbacks| <= |Receive(d, now).callbacks|
    ensures Times(Receive(d, now).callbacks[|d.callbacks|..], t) == []
  {
    var u := Unlinked(d);
    UnlinkedShare(d, t);
    SampleFrame(u, now);
    SampleOthers(u, now, t, |d.callbacks|);
    assert d.callbacks[|d.callbacks|..] == [];
  }

  predicate LeavesAlone(s: Step, t: TimerId) {
    (s.Ask? ==> s.command.timer != t) && (s.Make? ==> s.timer != t)
  }

  /** What others do leaves a dormant timer alone. */
  lemma {:induction false} DormantStep(d: Daemon, s: Step, t: TimerId, log: nat)
    requires Dormant(d, t) && log <= |d.callbacks| && Defined(d, s) && LeavesAlone(s, t)
    ensures SameShare(d, Apply(d, s), t, log) && Dormant(Apply(d, s), t)
  {
    if s.Make? {
    } else if s.Ask? {
      SendOrders(d, s.command, t);
    } else if s.WakeStep? {
      DormantWake(d, s.now, t, log);
    } else {
      NoOrderAtHead(d, t);
      DormantReceive(d, s.now, t, log);
    }
  }

  lemma {:induction false} DormantWake(d: Daemon, now: int, t: TimerId, log: nat)
    requires Dormant(d, t) && log <= |d.callbacks|
    ensures SameShare(d, Wake(d, now).0, t, log)
  {
    var (s, switched) := Sample(d, now);
    SampleFrame(d, now);
    if !switched && d.current != [] && d.current[0].value <= Residue(now) {
      ProcessFrame(s, now);
      SampleOthers(d, now, t, log);
      HeadIsMine(d.current, t);
      ProcessOther(s, now, t, log);
    } else {
      SampleOthers(d, now, t, log);
    }
  }

  lemma {:induction false} DormantReceive(d: Daemon, now: int, t: TimerId, log: nat)
    requires Dormant(d, t) && log <= |d.callbacks| && d.queue != [] && d.queue[0].timer != t
    ensures SameShare(d, Receive(d, now), t, log)
  {
    var u := Unlinked(d);
    UnlinkedShare(d, t);
    SampleFrame(u, now);
    ExecuteFrame(Sample(u, now).0, d.queue[0], now);
    SampleOthers(u, now, t, log);
    ExecuteOther(Sample(u, now).0, d.queue[0], now, t, log);
  }

  /** A dormant timer is not called back until somebody commands it again. */
  lemma {:induction false} DormantStaysSilent(d: Daemon, run: seq<Step>, t: TimerId, log: nat)
    requires Dormant(d, t) && log <= |d.callbacks| && forall s :: s in run ==> LeavesAlone(s, t)
    ensures Dormant(After(d, run), t) && log <= |After(d, run).callbacks|
    ensures Times(After(d, run).callbacks[log..], t) == Times(d.callbacks[log..], t)
    decreases |run|
  {
    if run != [] && Defined(d, run[0]) {
      var n := Apply(d, run[0]);
      assert run[0] in run;
      DormantStep(d, run[0], t, log);
      DormantStaysSilent(n, run[1..], t, log);
    }
  }

  lemma NoOrderAtHead(d: Daemon, t: TimerId)
    requires Orders(d.queue, t) == [] && d.queue != []
    ensures d.queue[0].timer != t
  {
  }
}
