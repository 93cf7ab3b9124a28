/** What becomes of a task that blocks on a queue, and whom the queue wakes: who waits, in which order waiters are
    served, and that nobody is woken without an item or a slot to show for it. */
module QueueBlocking {
  import opened ListModel
  import opened QueueProtocol

  // ---------- interrupts between the steps of a blocking task ----------

  /** Sends and receives from interrupts, and nothing else. */
  predicate Interrupts(run: seq<Step>) {
    forall s <- run :: s.IsrSendStep? || s.IsrReceiveStep?
  }

  /** While both sides are locked, interrupts leave the event lists alone and count what they have done. */
  lemma {:induction false} InterruptsKeepOff(q: Protocol, run: seq<Step>)
    requires Inv(q) && Possible(q, run) && Interrupts(run) && !q.region.Open? && !q.region.HalfUnlocked?
    ensures var r := After(q, run);
            && Inv(r) && r.region == q.region && r.length == q.length
            && r.receivers == q.receivers && r.senders == q.senders
            && r.receiversWoken == q.receiversWoken && r.sendersWoken == q.sendersWoken
    decreases |run|
  {
    if run != [] {
      assert run[0] in run;
      StepKeeps(q, run[0]);
      InterruptsKeepOff(Apply(q, run[0]), run[1..]);
    }
  }

  // ---------- blocking ----------

  /** A task that runs beside an unlocked queue and that no post has woken may do anything with it: send, receive,
      peek, or lock it to block.  One that was woken as a receiver (sender) may receive (send). */
  lemma {:induction false} RunningTaskMayProceed(q: Protocol, t: TaskId)
    requires q.region.Open? && t !in q.receivers && t !in q.senders
    ensures t !in q.receiversWoken ==> Enabled(q, SendStep(t, false))
    ensures t !in q.receiversWoken && q.length == 1 ==> Enabled(q, SendStep(t, true))
    ensures t !in q.sendersWoken ==> Enabled(q, ReceiveStep(t, false)) && Enabled(q, ReceiveStep(t, true))
    ensures t !in q.receiversWoken + q.sendersWoken ==> Enabled(q, LockStep(t, false)) && Enabled(q, LockStep(t, true))
  {
  }

  /** Interrupts and the clock may always step in. */
  lemma {:induction false} InterruptsMayProceed(q: Protocol, t: TaskId)
    ensures Enabled(q, IsrSendStep(false)) && Enabled(q, IsrReceiveStep) && Enabled(q, TimeOutStep(t))
  {
  }

  /** A task that has locked the queue to receive goes on to block exactly if it then finds no message; one that has
      locked it to send, exactly if it finds as many messages as the queue is long.  Otherwise it gives the lock up. */
  lemma {:induction false} BlocksExactlyIf(q: Protocol)
    requires q.region.Locked?
    ensures var t, r := q.region.task, Apply(q, CheckStep);
            && (q.region.receiving ==> (r.region == Checked(t, true) <==> q.messages == 0))
            && (!q.region.receiving ==> (r.region == Checked(t, false) <==> q.messages == q.length))
            && (r.region == Unlocking(t) || r.region == Checked(t, q.region.receiving))
            && r == q.(region := r.region)
  {
  }

  /** The critical sections of a task that blocks, with no interrupt in between. */
  function BlockingRun(t: TaskId, receiving: bool, p: nat): seq<Step> {
    [LockStep(t, receiving), CheckStep, PlaceStep(p), UnlockTxStep, UnlockRxStep]
  }

  /** ... and of one that finds what it needs, or whose time has run out. */
  function RetryingRun(t: TaskId, receiving: bool, expired: bool): seq<Step> {
    [LockStep(t, receiving), if expired then ExpireStep else CheckStep, UnlockTxStep, UnlockRxStep]
  }

  lemma {:induction false} FourSteps(q: Protocol, a: Step, b: Step, c: Step, d: Step)
    requires Enabled(q, a) && Enabled(Apply(q, a), b) && Enabled(Apply(Apply(q, a), b), c)
    requires Enabled(Apply(Apply(Apply(q, a), b), c), d)
    ensures Possible(q, [a, b, c, d])
    ensures After(q, [a, b, c, d]) == Apply(Apply(Apply(Apply(q, a), b), c), d)
  {
    var q1, q2, q3 := Apply(q, a), Apply(Apply(q, a), b), Apply(Apply(Apply(q, a), b), c);
    assert [a, b, c, d][1..] == [b, c, d] && [b, c, d][1..] == [c, d] && [c, d][1..] == [d] && [d][1..] == [];
    assert Possible(q3, [d]) && After(q3, [d]) == Apply(q3, d);
    assert Possible(q2, [c, d]) && After(q2, [c, d]) == After(q3, [d]);
    assert Possible(q1, [b, c, d]) && After(q1, [b, c, d]) == After(q2, [c, d]);
  }

  /** From any state in which it runs, a task that is to receive from an empty queue (send to a full one) can block,
      and then waits where its priority puts it, with everything else as before. */
  lemma {:induction false} BlockedTaskWaits(q: Protocol, t: TaskId, receiving: bool, p: nat)
    requires Inv(q) && q.region.Open? && t !in q.receivers && t !in q.senders
    requires t !in q.receiversWoken && t !in q.sendersWoken
    requires p <= |if receiving then q.receivers else q.senders|
    requires if receiving then q.messages == 0 else q.messages == q.length
    ensures Possible(q, BlockingRun(t, receiving, p))
    ensures var r := After(q, BlockingRun(t, receiving, p));
            r == (if receiving then q.(receivers := Put(q.receivers, p, t)) else q.(senders := Put(q.senders, p, t)))
            && (if receiving then r.receivers[p] == t else r.senders[p] == t)
  {
    var l := Apply(q, LockStep(t, receiving));
    var c := Apply(l, CheckStep);
    assert c.region == Checked(t, receiving);
    var run := BlockingRun(t, receiving, p);
    assert run[1..] == [CheckStep, PlaceStep(p), UnlockTxStep, UnlockRxStep];
    var w := if receiving then q.receivers else q.senders;
    PutAt(w, p, t);
    assert [] + w == w;
    FourSteps(l, CheckStep, PlaceStep(p), UnlockTxStep, UnlockRxStep);
  }

  /** One that finds what it needs, or whose time has run out, leaves the queue as it was. */
  lemma {:induction false} OthersGoOn(q: Protocol, t: TaskId, receiving: bool, expired: bool)
    requires Inv(q) && q.region.Open? && t !in q.receivers && t !in q.senders
    requires t !in q.receiversWoken && t !in q.sendersWoken
    requires expired || if receiving then q.messages != 0 else q.messages != q.length
    ensures Possible(q, RetryingRun(t, receiving, expired)) && After(q, RetryingRun(t, receiving, expired)) == q
  {
    FourSteps(q, LockStep(t, receiving), if expired then ExpireStep else CheckStep, UnlockTxStep, UnlockRxStep);
  }

  /** The same with interrupts at any point: a task that found no message is on the event list, or has been woken by
      a message that came since, when it has unlocked the first side; one that found a message is on no list. */
  lemma {:induction false} ReceiverBlocksDespiteInterrupts(q: Protocol, t: TaskId, before: seq<Step>,
      between: seq<Step>, after: seq<Step>, p: nat)
    requires Inv(q) && q.region.Open? && t !in q.receivers && t !in q.senders
    requires t !in q.receiversWoken && t !in q.sendersWoken
    requires Interrupts(before) && Interrupts(between) && Interrupts(after)
    requires p <= |q.receivers|
    requires var l := Apply(q, LockStep(t, true));
             && Possible(l, before)
             && After(l, before).region == l.region && Possible(Apply(After(l, before), CheckStep), between)
             && var d := After(Apply(After(l, before), CheckStep), between);
                && (Enabled(d, PlaceStep(p)) ==> Possible(Apply(d, PlaceStep(p)), after))
    ensures var b := After(Apply(q, LockStep(t, true)), before);
            var d := After(Apply(b, CheckStep), between);
            if b.messages == 0 then
              && Enabled(d, PlaceStep(p)) && Enabled(After(Apply(d, PlaceStep(p)), after), UnlockTxStep)
              && var r := Apply(After(Apply(d, PlaceStep(p)), after), UnlockTxStep);
                 t in r.receivers || t in r.receiversWoken
            else
              d.region == Unlocking(t) && t !in d.receivers && t !in d.senders
  {
    var l := Apply(q, LockStep(t, true));
    StepKeeps(q, LockStep(t, true));
    InterruptsKeepOff(l, before);
    var b := After(l, before);
    var c := Apply(b, CheckStep);
    StepKeeps(b, CheckStep);
    InterruptsKeepOff(c, between);
    var d := After(c, between);
    if b.messages == 0 {
      var e := Apply(d, PlaceStep(p));
      StepKeeps(d, PlaceStep(p));
      InterruptsKeepOff(e, after);
      PutAt(d.receivers, p, t);
      assert e.receivers[p] == t;
      KeptOrWoken(After(e, after), p);
    }
  }

  lemma KeptOrWoken(q: Protocol, p: nat)
    requires q.region.Unlocking? && p < |q.receivers|
    ensures var r := UnlockTx(q); q.receivers[p] in r.receivers || q.receivers[p] in r.receiversWoken
  {
    var n := Owed(q.txLock, |q.receivers|);
    if p < n {
      assert q.receivers[..n][p] == q.receivers[p];
    } else {
      assert q.receivers[n..][p - n] == q.receivers[p];
    }
  }

  /** While the second side is still locked, interrupts leave its event list alone. */
  lemma {:induction false} InterruptsKeepOffSenders(q: Protocol, run: seq<Step>)
    requires Inv(q) && Possible(q, run) && Interrupts(run) && q.region.HalfUnlocked?
    ensures var r := After(q, run);
            Inv(r) && r.region == q.region && r.senders == q.senders && r.sendersWoken == q.sendersWoken
    decreases |run|
  {
    if run != [] {
      assert run[0] in run;
      StepKeeps(q, run[0]);
      InterruptsKeepOffSenders(Apply(q, run[0]), run[1..]);
    }
  }

  /** The same for a task that found the queue full, when it has placed itself with the lock still held, and the
      second side is unlocked later. */
  lemma {:induction false} SenderBlocksDespiteInterrupts(q: Protocol, after: seq<Step>, last: seq<Step>, p: nat)
    requires Inv(q) && Enabled(q, CheckStep) && !q.region.receiving && p <= |q.senders|
    requires Interrupts(after) && Interrupts(last)
    requires var c := Apply(q, CheckStep);
             c.region.Checked? ==>
               && Possible(Apply(c, PlaceStep(p)), after)
               && After(Apply(c, PlaceStep(p)), after).region.Unlocking?
               && Possible(Apply(After(Apply(c, PlaceStep(p)), after), UnlockTxStep), last)
               && After(Apply(After(Apply(c, PlaceStep(p)), after), UnlockTxStep), last).region.HalfUnlocked?
    ensures var t, c := q.region.task, Apply(q, CheckStep);
            if q.messages == q.length then
              && c.region.Checked?
              && var r := Apply(After(Apply(After(Apply(c, PlaceStep(p)), after), UnlockTxStep), last), UnlockRxStep);
                 t in r.senders || t in r.sendersWoken
            else
              c.region == Unlocking(t) && t !in c.receivers && t !in c.senders
  {
    if q.messages == q.length {
      var c := Apply(q, CheckStep);
      StepKeeps(q, CheckStep);
      var e := Apply(c, PlaceStep(p));
      StepKeeps(c, PlaceStep(p));
      InterruptsKeepOff(e, after);
      PutAt(c.senders, p, q.region.task);
      assert e.senders[p] == q.region.task;
      var u := Apply(After(e, after), UnlockTxStep);
      StepKeeps(After(e, after), UnlockTxStep);
      InterruptsKeepOffSenders(u, last);
      SenderKeptOrWoken(After(u, last), p);
    }
  }

  lemma SenderKeptOrWoken(q: Protocol, p: nat)
    requires q.region.HalfUnlocked? && p < |q.senders|
    ensures var r := UnlockRx(q); q.senders[p] in r.senders || q.senders[p] in r.sendersWoken
  {
    var n := Owed(q.rxLock, |q.senders|);
    if p < n {
      assert q.senders[..n][p] == q.senders[p];
    } else {
      assert q.senders[n..][p - n] == q.senders[p];
    }
  }

  /** The lock is never stuck: whatever state the run is in, the task that holds it can give it up. */
  lemma {:induction false} LockCanBeReleased(q: Protocol)
    requires Inv(q) && !q.region.Open?
    ensures exists run :: Possible(q, run) && After(q, run).region.Open?
  {
    if q.region.HalfUnlocked? {
      assert Possible(q, [UnlockRxStep]) && After(q, [UnlockRxStep]).region.Open?;
    } else if q.region.Unlocking? {
      UnlockingEnds(q);
      assert After(q, [UnlockTxStep, UnlockRxStep]).region.Open?;
    } else {
      var s := if q.region.Locked? then CheckStep else PlaceStep(0);
      var r := Apply(q, s);
      if r.region.Checked? {
        UnlockingEnds(Apply(r, PlaceStep(0)));
        PrependStep(r, PlaceStep(0), [UnlockTxStep, UnlockRxStep]);
        PrependStep(q, s, [PlaceStep(0)] + [UnlockTxStep, UnlockRxStep]);
      } else {
        UnlockingEnds(r);
        PrependStep(q, s, [UnlockTxStep, UnlockRxStep]);
      }
    }
  }

  lemma PrependStep(q: Protocol, s: Step, run: seq<Step>)
    requires Enabled(q, s) && Possible(Apply(q, s), run)
    ensures Possible(q, [s] + run) && After(q, [s] + run) == After(Apply(q, s), run)
  {
    assert ([s] + run)[1..] == run;
  }

  lemma UnlockingEnds(q: Protocol)
    requires q.region.Unlocking?
    ensures Possible(q, [UnlockTxStep, UnlockRxStep]) && After(q, [UnlockTxStep, UnlockRxStep]).region.Open?
  {
    assert [UnlockTxStep, UnlockRxStep][1..] == [UnlockRxStep];
  }

  // ---------- whom the queue wakes ----------

  /** What is gone from an event list was at its front, and is among the woken. */
  ghost predicate ServedInOrder(before: seq<TaskId>, after: seq<TaskId>, woken: set<TaskId>) {
    && |after| <= |before|
    && after == before[|before| - |after|..]
    && forall t :: t in before[..|before| - |after|] ==> t in woken
  }

  lemma NobodyServed(l: seq<TaskId>, woken: set<TaskId>)
    ensures ServedInOrder(l, l, woken)
  {
    assert l[..0] == [];
  }

  lemma SomeServed(l: seq<TaskId>, n: nat, woken: set<TaskId>)
    requires n <= |l|
    ensures ServedInOrder(l, l[n..], woken + Members(l[..n]))
  {
  }

  lemma WakingServes(q: Protocol)
    ensures ServedInOrder(q.receivers, WakeReceiver(q).receivers, WakeReceiver(q).receiversWoken)
    ensures ServedInOrder(q.senders, WakeSender(q).senders, WakeSender(q).sendersWoken)
    ensures WakeReceiver(q).senders == q.senders && WakeSender(q).receivers == q.receivers
  {
    NobodyServed(q.receivers, q.receiversWoken);
    NobodyServed(q.senders, q.sendersWoken);
    if q.receivers != [] {
      assert q.receivers[..1] == [q.receivers[0]];
    }
    if q.senders != [] {
      assert q.senders[..1] == [q.senders[0]];
    }
  }

  ghost predicate AllServedInOrder(q: Protocol, r: Protocol) {
    ServedInOrder(q.receivers, r.receivers, r.receiversWoken) && ServedInOrder(q.senders, r.senders, r.sendersWoken)
  }

  lemma {:induction false} TaskServesInOrder(q: Protocol, s: Step)
    requires Enabled(q, s) && (s.SendStep? || s.ReceiveStep?)
    ensures AllServedInOrder(q, Apply(q, s))
  {
    NobodyServed(q.receivers, Apply(q, s).receiversWoken);
    NobodyServed(q.senders, Apply(q, s).sendersWoken);
    if s.SendStep? {
      var m := q.(sendersWoken := q.sendersWoken - {s.task});
      WakingServes(m.(messages := Added(m, s.overwrite)));
    } else {
      var m := q.(receiversWoken := q.receiversWoken - {s.task});
      WakingServes(m);
      if m.messages > 0 {
        WakingServes(m.(messages := m.messages - 1));
      }
    }
  }

  lemma {:induction false} InterruptServesInOrder(q: Protocol, s: Step)
    requires Enabled(q, s) && (s.IsrSendStep? || s.IsrReceiveStep?)
    ensures AllServedInOrder(q, Apply(q, s))
  {
    NobodyServed(q.receivers, q.receiversWoken);
    NobodyServed(q.senders, q.sendersWoken);
    if s.IsrSendStep? {
      WakingServes(q.(messages := Added(q, s.overwrite)));
    } else if q.messages > 0 {
      WakingServes(q.(messages := q.messages - 1));
    }
  }

  /** Tasks leave an event list from its front, and are then among the woken: no waiter is overtaken. */
  lemma {:induction false} WaitersServedInOrder(q: Protocol, s: Step)
    requires Enabled(q, s) && !s.TimeOutStep? && !s.PlaceStep?
    ensures AllServedInOrder(q, Apply(q, s))
  {
    NobodyServed(q.receivers, q.receiversWoken);
    NobodyServed(q.senders, q.sendersWoken);
    if s.SendStep? || s.ReceiveStep? {
      TaskServesInOrder(q, s);
    } else if s.IsrSendStep? || s.IsrReceiveStep? {
      InterruptServesInOrder(q, s);
    } else if s.UnlockTxStep? {
      SomeServed(q.receivers, Owed(q.txLock, |q.receivers|), q.receiversWoken);
    } else if s.UnlockRxStep? {
      SomeServed(q.senders, Owed(q.rxLock, |q.senders|), q.sendersWoken);
    }
  }

  /** The one whose block time has run out leaves, from wherever it waits; the others stay. */
  lemma {:induction false} TimedOutLeaves(q: Protocol, t: TaskId)
    requires Inv(q)
    ensures var r := Apply(q, TimeOutStep(t));
            && t !in r.receivers && t !in r.senders
            && (forall u :: u != t ==> (u in r.receivers <==> u in q.receivers) && (u in r.senders <==> u in q.senders))
            && r == q.(receivers := r.receivers, senders := r.senders)
  {
    WithoutDistinct(q.receivers, t);
    WithoutDistinct(q.senders, t);
  }

  // ---------- no wake-up without cause ----------

  /** Whether a step puts a message in, or passes one on by a peek. */
  predicate OffersMessage(q: Protocol, s: Step) {
    match s
    case SendStep(_, overwrite) => q.messages < q.length || overwrite
    case IsrSendStep(overwrite) => q.messages < q.length || overwrite
    case ReceiveStep(_, peek) => peek && q.messages > 0
    case _ => false
  }

  /** Whether a step takes a message out. */
  predicate OffersSlot(q: Protocol, s: Step) {
    match s
    case ReceiveStep(_, peek) => !peek && q.messages > 0
    case IsrReceiveStep => q.messages > 0
    case _ => false
  }

  /** How many tasks a step wakes, on either side. */
  function ReceiversServed(q: Protocol, s: Step): int
    requires Enabled(q, s)
  {
    if s.TimeOutStep? || s.PlaceStep? then 0 else |q.receivers| - |Apply(q, s).receivers|
  }

  function SendersServed(q: Protocol, s: Step): int
    requires Enabled(q, s)
  {
    if s.TimeOutStep? || s.PlaceStep? then 0 else |q.senders| - |Apply(q, s).senders|
  }

  lemma {:induction false} StepServes(q: Protocol, s: Step)
    requires Inv(q) && Enabled(q, s)
    ensures ReceiversServed(q, s) + Pending(Apply(q, s).txLock)
            <= Pending(q.txLock) + if OffersMessage(q, s) then 1 else 0
    ensures SendersServed(q, s) + Pending(Apply(q, s).rxLock)
            <= Pending(q.rxLock) + if OffersSlot(q, s) then 1 else 0
  {
  }

  function Messages(q: Protocol, run: seq<Step>): nat
    requires Possible(q, run)
    decreases |run|
  {
    if run == [] then 0 else (if OffersMessage(q, run[0]) then 1 else 0) + Messages(Apply(q, run[0]), run[1..])
  }

  function Slots(q: Protocol, run: seq<Step>): nat
    requires Possible(q, run)
    decreases |run|
  {
    if run == [] then 0 else (if OffersSlot(q, run[0]) then 1 else 0) + Slots(Apply(q, run[0]), run[1..])
  }

  function AllReceiversServed(q: Protocol, run: seq<Step>): int
    requires Possible(q, run)
    decreases |run|
  {
    if run == [] then 0 else ReceiversServed(q, run[0]) + AllReceiversServed(Apply(q, run[0]), run[1..])
  }

  function AllSendersServed(q: Protocol, run: seq<Step>): int
    requires Possible(q, run)
    decreases |run|
  {
    if run == [] then 0 else SendersServed(q, run[0]) + AllSendersServed(Apply(q, run[0]), run[1..])
  }

  lemma {:induction false} RunServes(q: Protocol, run: seq<Step>)
    requires Inv(q) && Possible(q, run)
    ensures AllReceiversServed(q, run) + Pending(After(q, run).txLock) <= Pending(q.txLock) + Messages(q, run)
    ensures AllSendersServed(q, run) + Pending(After(q, run).rxLock) <= Pending(q.rxLock) + Slots(q, run)
    decreases |run|
  {
    if run != [] {
      StepKeeps(q, run[0]);
      StepServes(q, run[0]);
      RunServes(Apply(q, run[0]), run[1..]);
    }
  }

  /** In every run: no more receivers are woken than messages were put in or peeked at, and no more senders than
      messages were taken out. */
  lemma {:induction false} NobodyIsWokenForNothing(length: nat, initial: nat, zeroSized: bool, run: seq<Step>)
    requires 0 < length && initial <= length && Possible(Created(length, initial, zeroSized), run)
    ensures var q := Created(length, initial, zeroSized);
            AllReceiversServed(q, run) <= Messages(q, run) && AllSendersServed(q, run) <= Slots(q, run)
  {
    RunServes(Created(length, initial, zeroSized), run);
  }
}
