/** The unsigned case splits of vTaskDelayUntil and xTaskCheckForTimeOut, in ideal time. */
module Deadlines {
  import opened Ticks

  // ---------- vTaskDelayUntil ----------

  /** Whether vTaskDelayUntil blocks (xShouldDelay). */
  function MustDelay(previous: Tick, increment: Tick, now: Tick): bool {
    var wake := Plus(previous, increment);
    if now < previous then wake < previous && wake > now else wake < previous || wake > now
  }

  /** For every ideal distance between the previous wake time and now, however large. */
  lemma {:induction false} MustDelayClosedForm(previous: int, increment: Tick, now: int)
    requires previous <= now && 0 < increment
    ensures MustDelay(Residue(previous), increment, Residue(now)) <==> Residue(now - previous) < increment
  {
    MinusIsDistance(now, previous);
  }

  /** Less than one revolution after the previous wake time, the task blocks exactly if the next wake time
      is still ahead; it then sleeps until exactly that time, and its wake value is not the current tick. */
  lemma {:induction false} DelayUntilIsExact(previous: int, increment: Tick, now: int)
    requires previous <= now < previous + MOD && 0 < increment
    ensures var p, n := Residue(previous), Residue(now);
            && (MustDelay(p, increment, n) <==> now < previous + increment)
            && (MustDelay(p, increment, n) ==>
                  && Plus(p, increment) != n
                  && Minus(Plus(p, increment), n) == previous + increment - now
                  && Plus(n, previous + increment - now) == Plus(p, increment))
  {
    MustDelayClosedForm(previous, increment, now);
    AtParts(0, now - previous);
    WithinOneRevolution(previous, increment);
    if now < previous + increment {
      var d := previous + increment - now;
      MinusIsDistance(previous + increment, now);
      AtParts(0, d);
      WithinOneRevolution(now, d);
    }
  }

  /** The case split meets its purpose for arbitrarily late calls too, unless the lateness, counted
      modulo one revolution, is below the increment. */
  lemma {:induction false} DelayUntilIsRightExactlyIf(previous: int, increment: Tick, now: int)
    requires previous <= now && 0 < increment
    ensures (MustDelay(Residue(previous), increment, Residue(now)) <==> now < previous + increment)
            <==> (now < previous + MOD || Residue(now - previous) >= increment)
  {
    MustDelayClosedForm(previous, increment, now);
    if now < previous + MOD {
      AtParts(0, now - previous);
    }
  }

  /** A call one revolution and five ticks late that blocks, although its wake time is long past. */
  lemma {:induction false} LateCallBlocks()
    ensures var previous, increment: Tick, now := 0, 10, MOD + 5;
            now >= previous + increment && MustDelay(Residue(previous), increment, Residue(now))
  {
    AtParts(0, 0);
    AtParts(1, 5);
  }

  /** The value *pxPreviousWakeTime has after k calls. */
  function WakeValue(start: Tick, increment: Tick, k: nat): Tick {
    if k == 0 then start else Plus(WakeValue(start, increment, k - 1), increment)
  }

  /** Successive wake times do not drift: the k-th is start + k * increment. */
  lemma {:induction false} WakeTimesDoNotDrift(start: int, increment: Tick, k: nat)
    ensures WakeValue(Residue(start), increment, k) == Residue(start + k * increment)
  {
    if k > 0 {
      WakeTimesDoNotDrift(start, increment, k - 1);
      WithinOneRevolution(start + (k - 1) * increment, increment);
      assert start + (k - 1) * increment + increment == start + k * increment;
    }
  }

  // ---------- xTaskCheckForTimeOut ----------

  /** What the kernel shows of ideal time: xNumOfOverflows (32 bits wide) and xTickCount. */
  datatype Reading = Reading(overflows: Tick, tick: Tick)

  function ReadingAt(now: int): Reading {
    Reading(Residue(Epoch(now)), Residue(now))
  }

  /** xReturn of xTaskCheckForTimeOut. */
  predicate Expired(entered: Reading, wait: Tick, now: Reading) {
    && wait != MAX_DELAY
    && ((now.overflows != entered.overflows && now.tick >= entered.tick) || Minus(now.tick, entered.tick) >= wait)
  }

  /** The ticks still to wait after a check that did not report expiry. */
  function Remaining(entered: Reading, wait: Tick, now: Reading): Tick
    requires !Expired(entered, wait, now)
  {
    if wait == MAX_DELAY then wait else wait - Minus(now.tick, entered.tick)
  }

  /** TimeOut_t, on which vTaskSetTimeOutState and xTaskCheckForTimeOut work in place. */
  class TimeOut {
    var entered: Reading

    /** vTaskSetTimeOutState. */
    method Set(now: Reading)
      modifies this
      ensures entered == now
    {
      entered := now;
    }

    /** xTaskCheckForTimeOut; `ticksToWait` is *pxTicksToWait before and after. */
    method Check(ticksToWait: Tick, now: Reading) returns (expired: bool, left: Tick)
      modifies this
      ensures expired == Expired(old(entered), ticksToWait, now)
      ensures !expired ==> left == Remaining(old(entered), ticksToWait, now)
      ensures !expired && ticksToWait != MAX_DELAY ==> entered == now
      ensures expired || ticksToWait == MAX_DELAY ==> entered == old(entered) && left == ticksToWait
    {
      left := ticksToWait;
      if ticksToWait == MAX_DELAY {
        expired := false;
      } else if now.overflows != entered.overflows && now.tick >= entered.tick {
        expired := true;
      } else if Minus(now.tick, entered.tick) < ticksToWait {
        left := ticksToWait - Minus(now.tick, entered.tick);
        Set(now);
        expired := false;
      } else {
        expired := true;
      }
    }
  }

  /** A task that blocks indefinitely never times out, and no other task does before its wait is over,
      however long ago the last check was. */
  lemma {:induction false} NeverEarly(entered: int, wait: Tick, now: int)
    requires entered <= now
    ensures Expired(ReadingAt(entered), wait, ReadingAt(now)) ==> wait != MAX_DELAY && now >= entered + wait
  {
    MinusIsDistance(now, entered);
    AtSplit(now);
    AtSplit(entered);
  }

  /** With at most one wrap since the last check the answer is exact. */
  lemma {:induction false} ExactWithinOneWrap(entered: int, wait: Tick, now: int)
    requires entered <= now && Epoch(now) <= Epoch(entered) + 1 && wait != MAX_DELAY
    ensures Expired(ReadingAt(entered), wait, ReadingAt(now)) <==> now >= entered + wait
  {
    NeverEarly(entered, wait, now);
    MinusIsDistance(now, entered);
    AtSplit(now);
    AtSplit(entered);
    if now < entered + MOD {
      AtParts(0, now - entered);
    } else {
      EpochsDiffer(Epoch(entered));
    }
  }

  lemma EpochsDiffer(e: int)
    ensures Residue(e) != Residue(e + 1)
  {
    WithinOneRevolution(e, 1);
  }

  /** Whatever the number of wraps: the answer is right exactly if less than one revolution has passed,
      or the overflow count differs and the tick count has come past the entry time again, or the
      distance modulo one revolution reaches the wait. */
  lemma {:induction false} TimeOutIsRightExactlyIf(entered: int, wait: Tick, now: int)
    requires entered <= now && wait != MAX_DELAY
    ensures (Expired(ReadingAt(entered), wait, ReadingAt(now)) <==> now >= entered + wait)
            <==> (|| now < entered + MOD
                  || (Residue(Epoch(now)) != Residue(Epoch(entered)) && Residue(now) >= Residue(entered))
                  || Residue(now - entered) >= wait)
  {
    NeverEarly(entered, wait, now);
    MinusIsDistance(now, entered);
    if now < entered + MOD {
      AtSplit(now);
      AtSplit(entered);
      ExactWithinOneWrap(entered, wait, now);
    }
  }

  /** An expiry two wraps late that is not seen: entered at tick 10, checked at tick 5 two epochs on. */
  lemma {:induction false} MissedAfterTwoWraps()
    ensures var entered, now, wait: Tick := 10, 2 * MOD + 5, MAX_DELAY - 1;
            now >= entered + wait && !Expired(ReadingAt(entered), wait, ReadingAt(now))
  {
    AtParts(0, 10);
    AtParts(2, 5);
  }

  /** A check that does not report expiry leaves the absolute deadline where it was. */
  lemma {:induction false} DeadlineIsConserved(entered: int, wait: Tick, now: int)
    requires entered <= now < entered + MOD && wait != MAX_DELAY
    requires !Expired(ReadingAt(entered), wait, ReadingAt(now))
    ensures now + Remaining(ReadingAt(entered), wait, ReadingAt(now)) == entered + wait
    ensures Remaining(ReadingAt(entered), wait, ReadingAt(now)) > 0
  {
    MinusIsDistance(now, entered);
    AtParts(0, now - entered);
  }

  /** The retry loop of the queue functions: the index of the first check that reports expiry. */
  function FirstExpiry(entered: Reading, wait: Tick, checks: seq<Reading>): nat
    decreases |checks|
  {
    if checks == [] || Expired(entered, wait, checks[0]) then 0
    else if wait == MAX_DELAY then 1 + FirstExpiry(entered, wait, checks[1..])
    else 1 + FirstExpiry(checks[0], Remaining(entered, wait, checks[0]), checks[1..])
  }

  ghost predicate Spaced(from: int, times: seq<int>) {
    && (times != [] ==> from <= times[0] < from + MOD)
    && (forall i :: 0 < i < |times| ==> times[i - 1] <= times[i] < times[i - 1] + MOD)
  }

  function Readings(times: seq<int>): (r: seq<Reading>)
    ensures |r| == |times| && forall i :: 0 <= i < |r| ==> r[i] == ReadingAt(times[i])
  {
    seq(|times|, i requires 0 <= i < |times| => ReadingAt(times[i]))
  }

  lemma LaterChecks(from: int, times: seq<int>)
    requires Spaced(from, times) && times != []
    ensures Spaced(times[0], times[1..]) && Readings(times)[1..] == Readings(times[1..])
    ensures Readings(times)[0] == ReadingAt(times[0])
  {
  }

  /** Any number of retries, each less than one revolution after the one before: the first check at or
      after the deadline entered + wait reports expiry and no earlier one does. */
  lemma {:induction false} RetriesDoNotDrift(entered: int, wait: Tick, times: seq<int>)
    requires Spaced(entered, times) && wait != MAX_DELAY
    ensures var f := FirstExpiry(ReadingAt(entered), wait, Readings(times));
            && f <= |times|
            && (forall i :: 0 <= i < f ==> times[i] < entered + wait)
            && (f < |times| ==> times[f] >= entered + wait)
    decreases |times|
  {
    if times != [] {
      var now := times[0];
      NeverEarly(entered, wait, now);
      if !Expired(ReadingAt(entered), wait, ReadingAt(now)) {
        DeadlineIsConserved(entered, wait, now);
        LaterChecks(entered, times);
        RetriesDoNotDrift(now, Remaining(ReadingAt(entered), wait, ReadingAt(now)), times[1..]);
      }
    }
  }
}
