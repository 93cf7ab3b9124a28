/** The software timer daemon of timers.c: two wrapping lists of expiry times, and a command queue through
    which late timers catch up. */
module Timers {
  import opened Ticks
  import opened ListModel

  type TimerId = nat
  type Period = p: Tick | p > 0 witness 1

  datatype Timer = Timer(period: Period, autoReload: bool)

  /** A linked-in timer list item. */
  datatype Entry = Entry(value: Tick, timer: TimerId)

  /** A message in the timer queue; starting and resetting are the same command to the daemon. */
  datatype Command =
    | Start(timer: TimerId, time: Tick)
    | Stop(timer: TimerId)
    | ChangePeriod(timer: TimerId, period: Period)
    | Delete(timer: TimerId)

  /** A callback, and the ideal time of the sample on whose strength the daemon made it. */
  datatype Callback = Callback(timer: TimerId, now: int)

  datatype Daemon = Daemon(
    current: seq<Entry>,           // pxCurrentTimerList
    overflow: seq<Entry>,          // pxOverflowTimerList
    queue: seq<Command>,           // xTimerQueue
    capacity: nat,                 // configTIMER_QUEUE_LENGTH
    lost: nat,                     // commands sent to a full queue
    timers: map<TimerId, Timer>,
    last: Tick,                    // xLastTime
    at: int,                       // history: the ideal time of that sample
    callbacks: seq<Callback>)      // history: the callbacks made
  {
    /** The control block of a timer (any value for a timer that does not exist). */
    function Of(t: TimerId): Timer {
      if t in timers then timers[t] else Timer(1, false)
    }
  }

  function Values(s: seq<Entry>): (r: seq<Tick>)
    ensures |r| == |s| && forall i :: 0 <= i < |s| ==> r[i] == s[i].value
  {
    seq(|s|, i requires 0 <= i < |s| => s[i].value)
  }

  /** vListInsert. */
  function InsertEntry(s: seq<Entry>, e: Entry): seq<Entry> {
    Put(s, InsertPos(Values(s), e.value), e)
  }

  /** uxListRemove, if the timer is in the list at all. */
  function WithoutTimer(s: seq<Entry>, t: TimerId): seq<Entry> {
    if s == [] then []
    else if s[0].timer == t then WithoutTimer(s[1..], t)
    else [s[0]] + WithoutTimer(s[1..], t)
  }

  /** xTimerGenericCommand with no block time. */
  function Send(d: Daemon, c: Command): Daemon {
    if |d.queue| < d.capacity then d.(queue := d.queue + [c]) else d.(lost := d.lost + 1)
  }

  function Fire(d: Daemon, t: TimerId, now: int): Daemon {
    d.(callbacks := d.callbacks + [Callback(t, now)])
  }

  // ---------- prvInsertTimerInActiveList ----------

  datatype Filing = ProcessNow | InCurrent | InOverflow

  function File(period: Period, expiry: Tick, now: Tick, command: Tick): Filing {
    if expiry <= now then
      if Minus(now, command) >= period then ProcessNow else InOverflow
    else
      if now < command && expiry >= command then ProcessNow else InCurrent
  }

  function Insert(d: Daemon, t: TimerId, expiry: Tick, now: Tick, command: Tick): (Daemon, bool) {
    match File(d.Of(t).period, expiry, now, command)
    case ProcessNow => (d, true)
    case InCurrent => (d.(current := InsertEntry(d.current, Entry(expiry, t))), false)
    case InOverflow => (d.(overflow := InsertEntry(d.overflow, Entry(expiry, t))), false)
  }

  /** For every distance between command and processing, however large: processed at once exactly if the
      distance, counted modulo one revolution, reaches the period. */
  lemma {:induction false} FileClosedForm(period: Period, command: int, now: int)
    requires command <= now
    ensures var f := File(period, Residue(command + period), Residue(now), Residue(command));
            && (f.ProcessNow? <==> Residue(now - command) >= period)
            && (f.InCurrent? ==> Residue(command + period) > Residue(now))
            && (f.InOverflow? ==> Residue(command + period) <= Residue(now))
  {
    WithinOneRevolution(command, period);
    MinusIsDistance(now, command);
  }

  /** A command processed less than one revolution after its time: the timer is processed at once exactly if
      it has expired, and is otherwise filed under the epoch its expiry lies in. */
  lemma {:induction false} FileIsExact(period: Period, command: int, now: int)
    requires command <= now < command + MOD
    ensures var f := File(period, Residue(command + period), Residue(now), Residue(command));
            && (f.ProcessNow? <==> now >= command + period)
            && (f.InCurrent? <==> now < command + period && Epoch(command + period) == Epoch(now))
            && (f.InOverflow? <==> now < command + period && Epoch(command + period) == Epoch(now) + 1)
  {
    FileClosedForm(period, command, now);
    AtParts(0, now - command);
    if now < command + period {
      WithinOneRevolution(now, command + period - now);
    }
  }

  /** ... and for a command of any age, the answer is right exactly if the command is less than one revolution
      old or its age modulo one revolution reaches the period. */
  lemma {:induction false} FileIsRightExactlyIf(period: Period, command: int, now: int)
    requires command <= now
    ensures (File(period, Residue(command + period), Residue(now), Residue(command)).ProcessNow?
             <==> now >= command + period)
            <==> (now < command + MOD || Residue(now - command) >= period)
  {
    FileClosedForm(period, command, now);
    if now < command + MOD {
      AtParts(0, now - command);
    }
  }

  /** The wrong answer: a timer of the longest period started at tick 5 and looked at at tick 10 of the next epoch
      is filed one revolution late. */
  lemma {:induction false} FiledOneRevolutionLate()
    ensures var command, now, period: Period := 5, MOD + 10, MAX_DELAY;
            && now >= command + period
            && File(period, Residue(command + period), Residue(now), Residue(command)) == InOverflow
  {
    AtParts(0, 5);
    AtParts(1, 10);
    AtParts(1, 4);
  }

  // ---------- the daemon ----------

  /** How far the timers of a list are from the end of the epoch, all together. */
  function Remaining(s: seq<Entry>): nat {
    if s == [] then 0 else MOD - s[0].value + Remaining(s[1..])
  }

  lemma {:induction false} RemainingConcat(a: seq<Entry>, b: seq<Entry>)
    ensures Remaining(a + b) == Remaining(a) + Remaining(b)
  {
    if a == [] {
      assert a + b == b;
    } else {
      assert (a + b)[0] == a[0] && (a + b)[1..] == a[1..] + b;
      RemainingConcat(a[1..], b);
    }
  }

  lemma {:induction false} RemainingInsert(s: seq<Entry>, e: Entry)
    ensures Remaining(InsertEntry(s, e)) == Remaining(s) + MOD - e.value
  {
    var p := InsertPos(Values(s), e.value);
    RemainingConcat(s[..p] + [e], s[p..]);
    RemainingConcat(s[..p], [e]);
    RemainingConcat(s[..p], s[p..]);
    assert s == s[..p] + s[p..];
    assert Remaining([e]) == MOD - e.value;
  }

  /** One round of the loop of prvSwitchTimerLists. */
  function Expire(d: Daemon, now: int): Daemon
    requires d.current != []
  {
    var e := d.current[0];
    var fired := Fire(d.(current := d.current[1..]), e.timer, now);
    if !d.Of(e.timer).autoReload then fired
    else
      var reload := Plus(e.value, d.Of(e.timer).period);
      if reload > e.value then fired.(current := InsertEntry(fired.current, Entry(reload, e.timer)))
      else Send(fired, Start(e.timer, e.value))
  }

  lemma ExpireShrinks(d: Daemon, now: int)
    requires d.current != []
    ensures Remaining(Expire(d, now).current) < Remaining(d.current)
  {
    var e := d.current[0];
    RemainingInsert(d.current[1..], Entry(Plus(e.value, d.Of(e.timer).period), e.timer));
  }

  /** The whole loop, whatever the timers' periods. */
  function ExpireAll(d: Daemon, now: int): (r: Daemon)
    ensures r.current == [] && r.overflow == d.overflow
    decreases Remaining(d.current)
  {
    if d.current == [] then d else
      ExpireShrinks(d, now);
      ExpireAll(Expire(d, now), now)
  }

  /** prvSwitchTimerLists. */
  function SwitchLists(d: Daemon, now: int): (r: Daemon)
    ensures r.current == d.overflow && r.overflow == []
  {
    var e := ExpireAll(d, now);
    e.(current := e.overflow, overflow := e.current)
  }

  /** prvSampleTimeNow: the daemon afterwards, and whether the lists were switched. */
  function Sample(d: Daemon, now: int): (Daemon, bool) {
    if Residue(now) < d.last then (SwitchLists(d, now).(last := Residue(now), at := now), true)
    else (d.(last := Residue(now), at := now), false)
  }

  /** prvProcessExpiredTimer, for the timer at the head of the current list. */
  function ProcessExpired(d: Daemon, now: int): Daemon
    requires d.current != []
  {
    var e := d.current[0];
    var taken := d.(current := d.current[1..]);
    if !d.Of(e.timer).autoReload then Fire(taken, e.timer, now)
    else
      var (filed, late) := Insert(taken, e.timer, Plus(e.value, d.Of(e.timer).period), Residue(now), e.value);
      Fire(if late then Send(filed, Start(e.timer, e.value)) else filed, e.timer, now)
  }

  /** prvProcessTimerOrBlockTask, after prvGetNextExpireTime: the daemon, and whether it blocks. */
  function Wake(d: Daemon, now: int): (Daemon, bool) {
    var (s, switched) := Sample(d, now);
    if switched then (s, false)
    else if d.current != [] && d.current[0].value <= Residue(now) then (ProcessExpired(s, now), false)
    else (s, true)
  }

  /** One round of prvProcessReceivedCommands. */
  function Receive(d: Daemon, now: int): Daemon
    requires d.queue != []
  {
    var c := d.queue[0];
    var u := d.(queue := d.queue[1..], current := WithoutTimer(d.current, c.timer),
                overflow := WithoutTimer(d.overflow, c.timer));
    Execute(Sample(u, now).0, c, now)
  }

  /** The switch over the commands. */
  function Execute(d: Daemon, c: Command, now: int): Daemon {
    match c
    case Start(t, time) =>
      var expiry := Plus(time, d.Of(t).period);
      var (filed, late) := Insert(d, t, expiry, Residue(now), time);
      if !late then filed
      else
        var fired := Fire(filed, t, now);
        if d.Of(t).autoReload then Send(fired, Start(t, expiry)) else fired
    case Stop(_) => d
    case ChangePeriod(t, period) =>
      var changed := d.(timers := d.timers[t := Timer(period, d.Of(t).autoReload)]);
      Insert(changed, t, Plus(Residue(now), period), Residue(now), Residue(now)).0
    case Delete(_) => d
  }
}
