/** The interleavings of one queue: tasks that check and then block, interrupts that post to and drain the
    queue at any moment, and the lock that keeps interrupts away from the event lists meanwhile.

    Every critical section of queue.c is one atomic step.  A task blocks in several of them (lock, check,
    place, unlock), with the scheduler suspended, and interrupts run between any two. */
module QueueProtocol {
  import opened ListModel

  type TaskId = nat

  /** Where the one task that has locked the queue stands, between two critical sections. */
  datatype Region =
    | Open                                       // the queue is not locked
    | Locked(task: TaskId, receiving: bool)      // locked, timeout and queue not looked at yet
    | Checked(task: TaskId, receiving: bool)     // found the queue empty (full): about to block
    | Unlocking(task: TaskId)                    // about to run the first half of prvUnlockQueue
    | HalfUnlocked(task: TaskId)                 // about to run the second half

  const UNLOCKED := -1

  /** The fields of Queue_t that take part, and for each direction the tasks that were taken off the event
      list by a post (a receive) and have not run again yet. */
  datatype Protocol = Protocol(
    messages: nat, length: nat, zeroSized: bool, txLock: int, rxLock: int,
    receivers: seq<TaskId>, senders: seq<TaskId>, region: Region,
    receiversWoken: set<TaskId>, sendersWoken: set<TaskId>)

  function Created(length: nat, initial: nat, zeroSized: bool): Protocol {
    Protocol(initial, length, zeroSized, UNLOCKED, UNLOCKED, [], [], Open, {}, {})
  }

  // ---------- the critical sections ----------

  /** xTaskRemoveFromEventList on either event list, if it is not empty. */
  function WakeReceiver(q: Protocol): Protocol {
    if q.receivers == [] then q
    else q.(receivers := q.receivers[1..], receiversWoken := q.receiversWoken + {q.receivers[0]})
  }

  function WakeSender(q: Protocol): Protocol {
    if q.senders == [] then q
    else q.(senders := q.senders[1..], sendersWoken := q.sendersWoken + {q.senders[0]})
  }

  predicate CanSend(q: Protocol, overwrite: bool) {
    q.messages < q.length || overwrite
  }

  /** The item count after prvCopyDataToQueue. */
  function Added(q: Protocol, overwrite: bool): nat {
    if overwrite && !q.zeroSized && q.messages > 0 then q.messages else q.messages + 1
  }

  /** The critical section at the head of the loop of xQueueGenericSend. */
  function SendTop(q: Protocol, t: TaskId, overwrite: bool): Protocol {
    var q := q.(sendersWoken := q.sendersWoken - {t});
    if CanSend(q, overwrite) then WakeReceiver(q.(messages := Added(q, overwrite))) else q
  }

  /** The same of xQueueGenericReceive; a peek leaves the message and passes the wake-up on. */
  function ReceiveTop(q: Protocol, t: TaskId, peek: bool): Protocol {
    var q := q.(receiversWoken := q.receiversWoken - {t});
    if q.messages == 0 then q
    else if peek then WakeReceiver(q)
    else WakeSender(q.(messages := q.messages - 1))
  }

  /** prvLockQueue. */
  function LockQueue(q: Protocol, t: TaskId, receiving: bool): Protocol {
    q.(region := Locked(t, receiving),
       txLock := if q.txLock == UNLOCKED then 0 else q.txLock,
       rxLock := if q.rxLock == UNLOCKED then 0 else q.rxLock)
  }

  /** prvIsQueueEmpty, prvIsQueueFull. */
  predicate MustWait(q: Protocol, receiving: bool) {
    if receiving then q.messages == 0 else q.messages == q.length
  }

  function Check(q: Protocol): Protocol
    requires q.region.Locked?
  {
    q.(region := if MustWait(q, q.region.receiving) then Checked(q.region.task, q.region.receiving)
                 else Unlocking(q.region.task))
  }

  /** xTaskCheckForTimeOut reported expiry. */
  function Expire(q: Protocol): Protocol
    requires q.region.Locked?
  {
    q.(region := Unlocking(q.region.task))
  }

  /** vTaskPlaceOnEventList, at the position that the priority of the task calls for. */
  function Place(q: Protocol, p: nat): Protocol
    requires q.region.Checked? && p <= |if q.region.receiving then q.receivers else q.senders|
  {
    var t := q.region.task;
    if q.region.receiving then q.(receivers := Put(q.receivers, p, t), region := Unlocking(t))
    else q.(senders := Put(q.senders, p, t), region := Unlocking(t))
  }

  function Least(a: int, b: int): int {
    if a < b then a else b
  }

  /** How many tasks a half of prvUnlockQueue wakes. */
  function Owed(lock: int, waiting: nat): nat {
    if lock > 0 then Least(lock, waiting) else 0
  }

  /** The first and the second critical section of prvUnlockQueue. */
  function UnlockTx(q: Protocol): Protocol
    requires q.region.Unlocking?
  {
    var n := Owed(q.txLock, |q.receivers|);
    q.(receivers := q.receivers[n..], receiversWoken := q.receiversWoken + Members(q.receivers[..n]),
       txLock := UNLOCKED, region := HalfUnlocked(q.region.task))
  }

  function UnlockRx(q: Protocol): Protocol
    requires q.region.HalfUnlocked?
  {
    var n := Owed(q.rxLock, |q.senders|);
    q.(senders := q.senders[n..], sendersWoken := q.sendersWoken + Members(q.senders[..n]),
       rxLock := UNLOCKED, region := Open)
  }

  function Members<T>(s: seq<T>): set<T> {
    set x | x in s
  }

  /** xQueueGenericSendFromISR and xQueueGiveFromISR. */
  function IsrSend(q: Protocol, overwrite: bool): Protocol {
    if !CanSend(q, overwrite) then q
    else
      var q := q.(messages := Added(q, overwrite));
      if q.txLock == UNLOCKED then WakeReceiver(q) else q.(txLock := q.txLock + 1)
  }

  /** xQueueReceiveFromISR. */
  function IsrReceive(q: Protocol): Protocol {
    if q.messages == 0 then q
    else
      var q := q.(messages := q.messages - 1);
      if q.rxLock == UNLOCKED then WakeSender(q) else q.(rxLock := q.rxLock + 1)
  }

  /** xTaskIncrementTick ends the wait of a task whose block time has run out. */
  function TimeOut(q: Protocol, t: TaskId): Protocol {
    q.(receivers := Without(q.receivers, t), senders := Without(q.senders, t))
  }

  // ---------- runs ----------

  datatype Step =
    | SendStep(task: TaskId, overwrite: bool)
    | ReceiveStep(task: TaskId, peek: bool)
    | LockStep(task: TaskId, receiving: bool)
    | CheckStep
    | ExpireStep
    | PlaceStep(position: nat)
    | UnlockTxStep
    | UnlockRxStep
    | IsrSendStep(overwrite: bool)
    | IsrReceiveStep
    | TimeOutStep(task: TaskId)

  /** A task runs only while it is on no event list and nobody has suspended the scheduler; a task that a
      post has woken continues at the head of the loop it blocked in. */
  predicate Running(q: Protocol, t: TaskId) {
    q.region.Open? && t !in q.receivers && t !in q.senders
  }

  predicate Enabled(q: Protocol, s: Step) {
    match s
    case SendStep(t, overwrite) => Running(q, t) && t !in q.receiversWoken && (overwrite ==> q.length == 1)
    case ReceiveStep(t, _) => Running(q, t) && t !in q.sendersWoken
    case LockStep(t, _) => Running(q, t) && t !in q.receiversWoken && t !in q.sendersWoken
    case CheckStep => q.region.Locked?
    case ExpireStep => q.region.Locked?
    case PlaceStep(p) => q.region.Checked? && p <= |if q.region.receiving then q.receivers else q.senders|
    case UnlockTxStep => q.region.Unlocking?
    case UnlockRxStep => q.region.HalfUnlocked?
    case IsrSendStep(overwrite) => overwrite ==> q.length == 1
    case IsrReceiveStep => true
    case TimeOutStep(_) => true
  }

  function Apply(q: Protocol, s: Step): Protocol
    requires Enabled(q, s)
  {
    match s
    case SendStep(t, overwrite) => SendTop(q, t, overwrite)
    case ReceiveStep(t, peek) => ReceiveTop(q, t, peek)
    case LockStep(t, receiving) => LockQueue(q, t, receiving)
    case CheckStep => Check(q)
    case ExpireStep => Expire(q)
    case PlaceStep(p) => Place(q, p)
    case UnlockTxStep => UnlockTx(q)
    case UnlockRxStep => UnlockRx(q)
    case IsrSendStep(overwrite) => IsrSend(q, overwrite)
    case IsrReceiveStep => IsrReceive(q)
    case TimeOutStep(t) => TimeOut(q, t)
  }

  predicate Possible(q: Protocol, run: seq<Step>)
    decreases |run|
  {
    run == [] || (Enabled(q, run[0]) && Possible(Apply(q, run[0]), run[1..]))
  }

  function After(q: Protocol, run: seq<Step>): Protocol
    requires Possible(q, run)
    decreases |run|
  {
    if run == [] then q else After(Apply(q, run[0]), run[1..])
  }

  // ---------- the invariant ----------

  function Pending(lock: int): nat {
    if lock > 0 then lock else 0
  }

  /** Every message that a waiting receiver could take is spoken for: by a receiver already woken, or by
      a wake-up that the lock has put off. */
  predicate NoLostReceive(q: Protocol) {
    q.receivers != [] ==> q.messages <= |q.receiversWoken| + Pending(q.txLock)
  }

  predicate NoLostSend(q: Protocol) {
    q.senders != [] ==> q.length - q.messages <= |q.sendersWoken| + Pending(q.rxLock)
  }

  predicate LocksMatch(q: Protocol) {
    match q.region
    case Open => q.txLock == UNLOCKED && q.rxLock == UNLOCKED
    case HalfUnlocked(_) => q.txLock == UNLOCKED && q.rxLock >= 0
    case _ => q.txLock >= 0 && q.rxLock >= 0
  }

  /** What a task that found the queue empty (full) still knows when it goes on the event list. */
  predicate CheckHolds(q: Protocol) {
    q.region.Checked? ==>
      if q.region.receiving then q.messages <= q.txLock else q.length - q.messages <= q.rxLock
  }

  ghost predicate Apart(q: Protocol) {
    && Distinct(q.receivers)
    && Distinct(q.senders)
    && (forall t :: t in q.receivers ==> t !in q.receiversWoken)
    && (forall t :: t in q.senders ==> t !in q.sendersWoken)
    && (q.region.Locked? || q.region.Checked? ==>
          && q.region.task !in q.receivers && q.region.task !in q.senders
          && q.region.task !in q.receiversWoken && q.region.task !in q.sendersWoken)
  }

  ghost predicate Inv(q: Protocol) {
    && q.length > 0
    && (!q.zeroSized ==> q.messages <= q.length)
    && LocksMatch(q)
    && CheckHolds(q)
    && Apart(q)
    && NoLostReceive(q)
    && NoLostSend(q)
  }

  // ---------- every step keeps it ----------

  lemma TailKeeps(s: seq<TaskId>)
    requires Distinct(s) && s != []
    ensures Distinct(s[1..]) && s[0] !in s[1..] && forall x :: x in s[1..] ==> x in s
  {
  }

  lemma {:induction false} WithoutDistinct(s: seq<TaskId>, x: TaskId)
    requires Distinct(s)
    ensures Distinct(Without(s, x)) && x !in Without(s, x)
  {
    if i :| 0 <= i < |s| && s[i] == x {
      WithoutOne(s, i);
      DropDistinct(s, i);
    } else {
      WithoutAbsent(s, x);
    }
  }

  lemma {:induction false} MembersCount(s: seq<TaskId>)
    requires Distinct(s)
    ensures |Members(s)| == |s|
  {
    if s != [] {
      TailKeeps(s);
      MembersCount(s[1..]);
      assert Members(s) == {s[0]} + Members(s[1..]);
    }
  }

  /** The first n waiters leave the list and join the woken tasks. */
  lemma {:induction false} WakeFirst(waiting: seq<TaskId>, woken: set<TaskId>, n: nat)
    requires Distinct(waiting) && n <= |waiting| && forall t :: t in waiting ==> t !in woken
    ensures Distinct(waiting[n..]) && forall t :: t in waiting[n..] ==> t in waiting
    ensures forall t :: t in waiting[n..] ==> t !in woken + Members(waiting[..n])
    ensures |woken + Members(waiting[..n])| == |woken| + n
  {
    MembersCount(waiting[..n]);
    forall t | t in Members(waiting[..n]) ensures t !in woken {
      assert t in waiting;
    }
    assert woken * Members(waiting[..n]) == {};
    forall t | t in waiting[n..] ensures t !in Members(waiting[..n]) && t in waiting {
      var j :| n <= j < |waiting| && waiting[j] == t;
    }
  }

  lemma WakeReceiverKeeps(q: Protocol)
    requires Apart(q)
    ensures Apart(WakeReceiver(q))
    ensures |WakeReceiver(q).receiversWoken| == |q.receiversWoken| + (if q.receivers == [] then 0 else 1)
  {
    if q.receivers != [] {
      TailKeeps(q.receivers);
    }
  }

  lemma WakeSenderKeeps(q: Protocol)
    requires Apart(q)
    ensures Apart(WakeSender(q))
    ensures |WakeSender(q).sendersWoken| == |q.sendersWoken| + (if q.senders == [] then 0 else 1)
  {
    if q.senders != [] {
      TailKeeps(q.senders);
    }
  }

  lemma SendTopKeeps(q: Protocol, t: TaskId, overwrite: bool)
    requires Inv(q) && Enabled(q, SendStep(t, overwrite))
    ensures Inv(SendTop(q, t, overwrite))
  {
    var r := q.(sendersWoken := q.sendersWoken - {t});
    if CanSend(r, overwrite) {
      WakeReceiverKeeps(r.(messages := Added(r, overwrite)));
    }
  }

  lemma ReceiveTopKeeps(q: Protocol, t: TaskId, peek: bool)
    requires Inv(q) && Enabled(q, ReceiveStep(t, peek))
    ensures Inv(ReceiveTop(q, t, peek))
  {
    var r := q.(receiversWoken := q.receiversWoken - {t});
    if r.messages > 0 {
      WakeReceiverKeeps(r);
      WakeSenderKeeps(r.(messages := r.messages - 1));
    }
  }

  lemma PutMembers(s: seq<TaskId>, p: nat, x: TaskId)
    requires p <= |s|
    ensures forall y :: y in Put(s, p, x) <==> y == x || y in s
  {
    PutAt(s, p, x);
    forall y | y in s ensures y in Put(s, p, x) {
      var i :| 0 <= i < |s| && s[i] == y;
      assert Put(s, p, x)[if i < p then i else i + 1] == y;
    }
    assert Put(s, p, x)[p] == x;
  }

  lemma PlaceKeeps(q: Protocol, p: nat)
    requires Inv(q) && Enabled(q, PlaceStep(p))
    ensures Inv(Place(q, p))
  {
    var t, waiting := q.region.task, if q.region.receiving then q.receivers else q.senders;
    PutDistinct(waiting, p, t);
    PutMembers(waiting, p, t);
  }

  lemma UnlockTxKeeps(q: Protocol)
    requires Inv(q) && q.region.Unlocking?
    ensures Inv(UnlockTx(q))
  {
    WakeFirst(q.receivers, q.receiversWoken, Owed(q.txLock, |q.receivers|));
  }

  lemma UnlockRxKeeps(q: Protocol)
    requires Inv(q) && q.region.HalfUnlocked?
    ensures Inv(UnlockRx(q))
  {
    WakeFirst(q.senders, q.sendersWoken, Owed(q.rxLock, |q.senders|));
  }

  lemma IsrSendKeeps(q: Protocol, overwrite: bool)
    requires Inv(q) && (overwrite ==> q.length == 1)
    ensures Inv(IsrSend(q, overwrite))
  {
    WakeReceiverKeeps(q.(messages := Added(q, overwrite)));
  }

  lemma IsrReceiveKeeps(q: Protocol)
    requires Inv(q)
    ensures Inv(IsrReceive(q))
  {
    if q.messages > 0 {
      WakeSenderKeeps(q.(messages := q.messages - 1));
    }
  }

  lemma TimeOutKeeps(q: Protocol, t: TaskId)
    requires Inv(q)
    ensures Inv(TimeOut(q, t))
  {
    WithoutDistinct(q.receivers, t);
    WithoutDistinct(q.senders, t);
  }

  lemma StepKeeps(q: Protocol, s: Step)
    requires Inv(q) && Enabled(q, s)
    ensures Inv(Apply(q, s))
  {
    match s
    case SendStep(t, overwrite) => SendTopKeeps(q, t, overwrite);
    case ReceiveStep(t, peek) => ReceiveTopKeeps(q, t, peek);
    case LockStep(_, _) =>
    case CheckStep =>
    case ExpireStep =>
    case PlaceStep(p) => PlaceKeeps(q, p);
    case UnlockTxStep => UnlockTxKeeps(q);
    case UnlockRxStep => UnlockRxKeeps(q);
    case IsrSendStep(overwrite) => IsrSendKeeps(q, overwrite);
    case IsrReceiveStep => IsrReceiveKeeps(q);
    case TimeOutStep(t) => TimeOutKeeps(q, t);
  }

  lemma {:induction false} RunKeeps(q: Protocol, run: seq<Step>)
    requires Inv(q) && Possible(q, run)
    ensures Inv(After(q, run))
    decreases |run|
  {
    if run != [] {
      StepKeeps(q, run[0]);
      RunKeeps(Apply(q, run[0]), run[1..]);
    }
  }

  /** In every interleaving, from creation on: a receiver waits only while every message is spoken for,
      and a sender only while every free slot is. */
  lemma {:induction false} NoLostWakeUp(length: nat, initial: nat, zeroSized: bool, run: seq<Step>)
    requires 0 < length && initial <= length && Possible(Created(length, initial, zeroSized), run)
    ensures var q := After(Created(length, initial, zeroSized), run);
            && NoLostReceive(q)
            && NoLostSend(q)
            && (!zeroSized ==> q.messages <= length)
  {
    RunKeeps(Created(length, initial, zeroSized), run);
    RunKeepsShape(Created(length, initial, zeroSized), run);
  }

  lemma {:induction false} RunKeepsShape(q: Protocol, run: seq<Step>)
    requires Possible(q, run)
    ensures After(q, run).length == q.length && After(q, run).zeroSized == q.zeroSized
    decreases |run|
  {
    if run != [] {
      RunKeepsShape(Apply(q, run[0]), run[1..]);
    }
  }

  /** Once the queue is unlocked and the woken tasks have run, no receiver waits for a message that is
      there, no sender for a slot that is free, and they never wait for each other. */
  lemma {:induction false} NobodyWaitsInVain(length: nat, initial: nat, zeroSized: bool, run: seq<Step>)
    requires 0 < length && initial <= length && Possible(Created(length, initial, zeroSized), run)
    requires var q := After(Created(length, initial, zeroSized), run); q.region.Open?
    ensures var q := After(Created(length, initial, zeroSized), run);
            && (q.receivers != [] && q.receiversWoken == {} ==> q.messages == 0)
            && (q.senders != [] && q.sendersWoken == {} ==> q.messages >= q.length)
            && (q.receivers != [] && q.senders != [] ==> q.receiversWoken + q.sendersWoken != {})
  {
    RunKeeps(Created(length, initial, zeroSized), run);
  }

  // ---------- what the run model leaves out, and why ----------

  /** xQueueGenericReset of a queue in use wakes one sender, whatever the number of slots it frees. */
  function Reset(q: Protocol): Protocol {
    WakeSender(q.(messages := 0, txLock := UNLOCKED, rxLock := UNLOCKED))
  }

  /** Resetting an unlocked queue loses a wake-up unless at most one sender waits or the tasks woken by
      now, that one included, are enough for all slots. */
  lemma {:induction false} ResetKeepsExactlyIf(q: Protocol)
    requires Inv(q) && q.region.Open?
    ensures Inv(Reset(q)) <==> |q.senders| <= 1 || q.length <= |q.sendersWoken| + 1
    ensures Reset(q).messages == 0 && Reset(q).receivers == q.receivers && |Reset(q).senders| + 1 >= |q.senders|
  {
    WakeSenderKeeps(q.(messages := 0));
  }

  /** Two senders wait for a full queue of two; after a reset one of them still waits, for an empty one. */
  lemma {:induction false} ResetCanStrandASender()
    ensures var q := Protocol(2, 2, false, UNLOCKED, UNLOCKED, [], [1, 2], Open, {}, {});
            Inv(q) && Reset(q).senders == [2] && Reset(q).messages == 0 && !NoLostSend(Reset(q))
  {
  }

  /** The count stays within the length exactly if no full queue of zero-sized items is overwritten:
      prvCopyDataToQueue then counts an item that replaced nothing. */
  lemma {:induction false} SendStaysInBoundsExactlyIf(q: Protocol, t: TaskId, overwrite: bool)
    requires q.messages <= q.length && 0 < q.length && (overwrite ==> q.length == 1)
    ensures SendTop(q, t, overwrite).messages <= q.length
            <==> !(overwrite && q.zeroSized && q.messages == q.length)
  {
  }

  /** A queue of one zero-sized item that is overwritten twice counts two messages. */
  lemma {:induction false} OverwritesAreCounted(t: TaskId)
    ensures SendTop(SendTop(Created(1, 0, true), t, true), t, true).messages == 2
  {
    var q := SendTop(Created(1, 0, true), t, true);
    assert q.messages == 1 && q.receivers == [];
  }
}
