/** The file-scope state of timers.c as an object, and the functions of the daemon task that work on it. */
module TimerDaemons {
  import opened Ticks
  import opened ListModel
  import opened Timers
  import TimerRuns

  class TimerDaemon {
    var current: seq<Entry>
    var overflow: seq<Entry>
    var queue: seq<Command>
    const capacity: nat
    var timers: map<TimerId, Timer>
    var last: Tick
    ghost var lost: nat
    ghost var at: int
    ghost var callbacks: seq<Callback>

    ghost function Model(): Daemon
      reads this
    {
      Daemon(current, overflow, queue, capacity, lost, timers, last, at, callbacks)
    }

    /** prvCheckForValidListAndQueue. */
    constructor (capacity: nat)
      ensures Model() == TimerRuns.NO_TIMERS.(capacity := capacity)
    {
      this.capacity := capacity;
      current, overflow, queue, timers, last := [], [], [], map[], 0;
      lost, at, callbacks := 0, 0, [];
    }

    /** xTimerCreate; whether it returns a timer. */
    method CreateTimer(t: TimerId, period: Tick, autoReload: bool) returns (created: bool)
      requires t !in timers
      modifies `timers
      ensures created <==> period > 0
      ensures Model() == if created then TimerRuns.Apply(old(Model()), TimerRuns.Make(t, Timer(period, autoReload)))
                         else old(Model())
    {
      created := period != 0;
      if created {
        timers := timers[t := Timer(period, autoReload)];
      }
    }

    function TimerOf(t: TimerId): Timer
      reads this
    {
      if t in timers then timers[t] else Timer(1, false)
    }

    /** xTimerGenericCommand with no block time; xReturn. */
    method GenericCommand(c: Command) returns (sent: bool)
      modifies `queue, `lost
      ensures Model() == Send(old(Model()), c) && sent == (lost == old(lost))
    {
      sent := |queue| < capacity;
      if sent {
        queue := queue + [c];
      } else {
        lost := lost + 1;
      }
    }

    /** The call through pxCallbackFunction. */
    ghost method CallBack(t: TimerId, now: int)
      modifies `callbacks
      ensures Model() == Fire(old(Model()), t, now)
    {
      callbacks := callbacks + [Callback(t, now)];
    }

    /** prvInsertTimerInActiveList; xProcessTimerNow. */
    method InsertTimerInActiveList(t: TimerId, expiry: Tick, timeNow: Tick, commandTime: Tick)
      returns (processNow: bool)
      modifies `current, `overflow
      ensures (Model(), processNow) == Insert(old(Model()), t, expiry, timeNow, commandTime)
    {
      processNow := false;
      if expiry <= timeNow {
        if Minus(timeNow, commandTime) >= TimerOf(t).period {
          processNow := true;
        } else {
          overflow := InsertEntry(overflow, Entry(expiry, t));
        }
      } else {
        if timeNow < commandTime && expiry >= commandTime {
          processNow := true;
        } else {
          current := InsertEntry(current, Entry(expiry, t));
        }
      }
    }

    /** One round of the loop of prvSwitchTimerLists. */
    method ExpireHead(ghost now: int)
      requires current != []
      modifies `current, `queue, `lost, `callbacks
      ensures Model() == Expire(old(Model()), now)
    {
      var e := current[0];
      current := current[1..];
      CallBack(e.timer, now);
      if TimerOf(e.timer).autoReload {
        var reload := Plus(e.value, TimerOf(e.timer).period);
        if reload > e.value {
          current := InsertEntry(current, Entry(reload, e.timer));
        } else {
          var sent := GenericCommand(Start(e.timer, e.value));
        }
      }
    }

    /** prvSwitchTimerLists: terminates whatever the timers and their periods, and what was the current list is
        the new, empty overflow list. */
    method SwitchTimerLists(ghost now: int)
      modifies `current, `overflow, `queue, `lost, `callbacks
      ensures Model() == SwitchLists(old(Model()), now)
      ensures current == old(overflow) && overflow == []
    {
      while current != []
        invariant ExpireAll(Model(), now) == ExpireAll(old(Model()), now) && overflow == old(overflow)
        decreases Remaining(current)
      {
        ExpireShrinks(Model(), now);
        ExpireHead(now);
      }
      var temp := current;
      current := overflow;
      overflow := temp;
    }

    /** prvSampleTimeNow, when xTaskGetTickCount returns `timeNow`; *pxTimerListsWereSwitched. */
    method SampleTimeNow(timeNow: Tick, ghost now: int) returns (switched: bool)
      requires timeNow == Residue(now)
      modifies `current, `overflow, `queue, `lost, `callbacks, `last, `at
      ensures (Model(), switched) == Sample(old(Model()), now)
    {
      switched := timeNow < last;
      if switched {
        SwitchTimerLists(now);
      }
      last := timeNow;
      at := now;
    }

    /** prvProcessExpiredTimer. */
    method ProcessExpiredTimer(nextExpireTime: Tick, timeNow: Tick, ghost now: int)
      requires current != [] && current[0].value == nextExpireTime && timeNow == Residue(now)
      modifies `current, `overflow, `queue, `lost, `callbacks
      ensures Model() == ProcessExpired(old(Model()), now)
    {
      var t := current[0].timer;
      current := current[1..];
      if TimerOf(t).autoReload {
        var late := InsertTimerInActiveList(t, Plus(nextExpireTime, TimerOf(t).period), timeNow, nextExpireTime);
        if late {
          var sent := GenericCommand(Start(t, nextExpireTime));
        }
      }
      CallBack(t, now);
    }

    /** prvGetNextExpireTime; *pxListWasEmpty. */
    method GetNextExpireTime() returns (next: Tick, listWasEmpty: bool)
      ensures listWasEmpty == (current == []) && next == if current == [] then 0 else current[0].value
    {
      listWasEmpty := current == [];
      next := if listWasEmpty then 0 else current[0].value;
    }

    /** prvProcessTimerOrBlockTask after prvGetNextExpireTime; whether, for how long and whether without a
        timeout the task then waits for a command. */
    method ProcessTimerOrBlockTask(timeNow: Tick, ghost now: int) returns (blocks: bool, ticks: Tick, forever: bool)
      requires timeNow == Residue(now)
      modifies `current, `overflow, `queue, `lost, `callbacks, `last, `at
      ensures (Model(), blocks) == Wake(old(Model()), now)
      ensures blocks ==> forever == (current == [] && overflow == [])
      ensures blocks && current != [] ==> timeNow + ticks == current[0].value && ticks > 0
      ensures blocks && current == [] ==> Plus(timeNow, ticks) == 0
      ensures blocks && !forever && old(TimerRuns.ZeroIsClear(Model())) ==> ticks > 0
    {
      var next, listWasEmpty := GetNextExpireTime();
      var switched := SampleTimeNow(timeNow, now);
      blocks, ticks, forever := false, 0, false;
      if !switched {
        if !listWasEmpty && next <= timeNow {
          ProcessExpiredTimer(next, timeNow, now);
        } else {
          if listWasEmpty {
            listWasEmpty := overflow == [];
          }
          blocks, ticks, forever := true, Minus(next, timeNow), listWasEmpty;
        }
      }
    }

    /** One round of prvProcessReceivedCommands. */
    method ProcessReceivedCommand(timeNow: Tick, ghost now: int)
      requires queue != [] && timeNow == Residue(now)
      modifies this
      ensures Model() == Receive(old(Model()), now)
    {
      var c := queue[0];
      queue := queue[1..];
      current := WithoutTimer(current, c.timer);
      overflow := WithoutTimer(overflow, c.timer);
      var switched := SampleTimeNow(timeNow, now);
      match c
      case Start(t, time) =>
        var expiry := Plus(time, TimerOf(t).period);
        var late := InsertTimerInActiveList(t, expiry, timeNow, time);
        if late {
          CallBack(t, now);
          if TimerOf(t).autoReload {
            var sent := GenericCommand(Start(t, expiry));
          }
        }
      case Stop(_) =>
      case ChangePeriod(t, period) =>
        timers := timers[t := Timer(period, TimerOf(t).autoReload)];
        var late := InsertTimerInActiveList(t, Plus(timeNow, period), timeNow, timeNow);
      case Delete(_) =>
    }
  }
}
