/** The two wrapping delayed lists refine one wake queue in unbounded time.

    The ideal machine has a clock that never wraps and one queue of sleepers ordered by deadline.  The
    kernel's tick count is the residue of the ideal clock, its current delayed list holds the deadlines of
    the clock's epoch and its overflow list those of the next one. */
module TaskTime {
  import opened Ticks
  import opened ListModel
  import opened Tasks
  import opened TaskInvariants
  import opened TaskRuns

  // ---------- the ideal machine ----------

  datatype Sleeper = Sleeper(deadline: int, task: TaskId)
  datatype Ideal = Ideal(now: int, queue: seq<Sleeper>)
  datatype Action = Begin(t: TaskId, ticks: Tick) | Cancel(t: TaskId) | Advance

  /** The position behind every sleeper with a deadline up to `d`. */
  function Behind(q: seq<Sleeper>, d: int): (p: nat)
    ensures p <= |q|
  {
    if q == [] || q[0].deadline > d then 0 else 1 + Behind(q[1..], d)
  }

  function Enter(q: seq<Sleeper>, x: Sleeper): seq<Sleeper> {
    Put(q, Behind(q, x.deadline), x)
  }

  function Cancelled(q: seq<Sleeper>, t: TaskId): seq<Sleeper> {
    if q == [] then []
    else if q[0].task == t then Cancelled(q[1..], t)
    else [q[0]] + Cancelled(q[1..], t)
  }

  /** The sleepers left when everyone due by `now` has woken. */
  function Expire(q: seq<Sleeper>, now: int): seq<Sleeper> {
    if q == [] || q[0].deadline > now then q else Expire(q[1..], now)
  }

  function Act(i: Ideal, a: Action): Ideal {
    match a
    case Begin(t, ticks) =>
      i.(queue := Enter(i.queue, Sleeper(i.now + ticks, t)))
    case Cancel(t) => i.(queue := Cancelled(i.queue, t))
    case Advance => Ideal(i.now + 1, Expire(i.queue, i.now + 1))
  }

  function ActAll(i: Ideal, actions: seq<Action>): Ideal
    decreases |actions|
  {
    if actions == [] then i else ActAll(Act(i, actions[0]), actions[1..])
  }

  lemma {:induction false} ActAllConcat(i: Ideal, a: seq<Action>, b: seq<Action>)
    ensures ActAll(i, a + b) == ActAll(ActAll(i, a), b)
    decreases |a|
  {
    if a == [] {
      assert a + b == b;
    } else {
      assert (a + b)[1..] == a[1..] + b;
      ActAllConcat(Act(i, a[0]), a[1..], b);
    }
  }

  // ---------- the abstraction ----------

  ghost function Lift(tcb: map<TaskId, Tcb>, s: seq<TaskId>, epoch: int): (r: seq<Sleeper>)
    ensures |r| == |s| && forall i :: 0 <= i < |s| ==> r[i] == Sleeper(At(epoch, WakeOf(tcb, s[i])), s[i])
  {
    seq(|s|, i requires 0 <= i < |s| => Sleeper(At(epoch, WakeOf(tcb, s[i])), s[i]))
  }

  ghost function Sleepers(k: Kernel, now: int): seq<Sleeper> {
    Lift(k.tcb, k.delayed, Epoch(now)) + Lift(k.tcb, k.overflow, Epoch(now) + 1)
  }

  /** The kernel shows the ideal state `i`. */
  ghost predicate Shows(k: Kernel, i: Ideal) {
    Residue(i.now) == k.tick && Sleepers(k, i.now) == i.queue
  }

  // ---------- list lemmas ----------

  lemma {:induction false} CancelledConcat(a: seq<Sleeper>, b: seq<Sleeper>, t: TaskId)
    ensures Cancelled(a + b, t) == Cancelled(a, t) + Cancelled(b, t)
  {
    if a == [] {
      assert a + b == b;
    } else {
      assert (a + b)[1..] == a[1..] + b;
      CancelledConcat(a[1..], b, t);
    }
  }

  lemma LiftCons(tcb: map<TaskId, Tcb>, t: TaskId, s: seq<TaskId>, epoch: int)
    ensures Lift(tcb, [t] + s, epoch) == [Sleeper(At(epoch, WakeOf(tcb, t)), t)] + Lift(tcb, s, epoch)
  {
  }

  lemma {:induction false} LiftWithout(tcb: map<TaskId, Tcb>, s: seq<TaskId>, epoch: int, t: TaskId)
    ensures Lift(tcb, Without(s, t), epoch) == Cancelled(Lift(tcb, s, epoch), t)
  {
    if s != [] {
      LiftWithout(tcb, s[1..], epoch, t);
      assert Lift(tcb, s, epoch)[1..] == Lift(tcb, s[1..], epoch);
      LiftCons(tcb, s[0], Without(s[1..], t), epoch);
    }
  }

  lemma {:induction false} LiftPut(tcb: map<TaskId, Tcb>, s: seq<TaskId>, epoch: int, p: nat, t: TaskId)
    requires p <= |s|
    ensures Lift(tcb, Put(s, p, t), epoch) == Put(Lift(tcb, s, epoch), p, Sleeper(At(epoch, WakeOf(tcb, t)), t))
  {
    PutAt(s, p, t);
    PutAt(Lift(tcb, s, epoch), p, Sleeper(At(epoch, WakeOf(tcb, t)), t));
  }

  lemma PutConcat<T>(a: seq<T>, b: seq<T>, p: nat, x: T)
    ensures p <= |a| ==> Put(a + b, p, x) == Put(a, p, x) + b
    ensures p <= |b| ==> Put(a + b, |a| + p, x) == a + Put(b, p, x)
  {
    if p <= |a| {
      assert (a + b)[..p] == a[..p] && (a + b)[p..] == a[p..] + b;
    }
    if p <= |b| {
      assert (a + b)[..|a| + p] == a + b[..p] && (a + b)[|a| + p..] == b[p..];
    }
  }

  lemma {:induction false} BehindIsUnique(q: seq<Sleeper>, d: int, p: nat)
    requires p <= |q|
    requires forall i :: 0 <= i < p ==> q[i].deadline <= d
    requires p < |q| ==> q[p].deadline > d
    ensures p == Behind(q, d)
  {
    if p > 0 {
      assert q[0].deadline <= d;
      BehindIsUnique(q[1..], d, p - 1);
    }
  }

  // ---------- one operation at a time ----------

  lemma {:induction false} UnlistRefines(k: Kernel, t: TaskId, now: int)
    ensures Sleepers(Unlist(k, t), now) == Cancelled(Sleepers(k, now), t)
  {
    var e := Epoch(now);
    LiftWithout(k.tcb, k.delayed, e, t);
    LiftWithout(k.tcb, k.overflow, e + 1, t);
    CancelledConcat(Lift(k.tcb, k.delayed, e), Lift(k.tcb, k.overflow, e + 1), t);
  }

  lemma {:induction false} SleepersFrame(k: Kernel, r: Kernel, now: int)
    requires r.delayed == k.delayed && r.overflow == k.overflow
    requires forall t :: t in k.delayed || t in k.overflow ==> WakeOf(r.tcb, t) == WakeOf(k.tcb, t)
    ensures Sleepers(r, now) == Sleepers(k, now)
  {
    assert Lift(r.tcb, r.delayed, Epoch(now)) == Lift(k.tcb, k.delayed, Epoch(now));
    assert Lift(r.tcb, r.overflow, Epoch(now) + 1) == Lift(k.tcb, k.overflow, Epoch(now) + 1);
  }

  /** A sorted insertion into the list of the clock's epoch is one into the whole queue ... */
  lemma {:induction false} InsertNear(tcb: map<TaskId, Tcb>, near: seq<TaskId>, far: seq<TaskId>, e: int, t: TaskId)
    requires t in tcb
    ensures var q, d := Lift(tcb, near, e) + Lift(tcb, far, e + 1), At(e, WakeOf(tcb, t));
            Lift(tcb, InsertByWake(tcb, near, t), e) + Lift(tcb, far, e + 1) == Enter(q, Sleeper(d, t))
  {
    var wake := tcb[t].wakeValue;
    var a, b, d := Lift(tcb, near, e), Lift(tcb, far, e + 1), At(e, wake);
    var p := InsertPos(WakeValues(tcb, near), wake);
    LiftPut(tcb, near, e, p, t);
    PutConcat(a, b, p, Sleeper(d, t));
    InsertSplits(tcb, near, wake);
    BehindIsUnique(a + b, d, p);
  }

  /** ... and so is one into the list of the next epoch, since everyone in the first list is due earlier. */
  lemma {:induction false} InsertFar(tcb: map<TaskId, Tcb>, near: seq<TaskId>, far: seq<TaskId>, e: int, t: TaskId)
    requires t in tcb
    ensures var q, d := Lift(tcb, near, e) + Lift(tcb, far, e + 1), At(e + 1, WakeOf(tcb, t));
            Lift(tcb, near, e) + Lift(tcb, InsertByWake(tcb, far, t), e + 1) == Enter(q, Sleeper(d, t))
  {
    var wake := tcb[t].wakeValue;
    var a, b, d := Lift(tcb, near, e), Lift(tcb, far, e + 1), At(e + 1, wake);
    var p := InsertPos(WakeValues(tcb, far), wake);
    LiftPut(tcb, far, e + 1, p, t);
    PutConcat(a, b, p, Sleeper(d, t));
    FarSplits(tcb, near, far, e, t, p);
    BehindIsUnique(a + b, d, |a| + p);
  }

  lemma {:induction false} FarSplits(tcb: map<TaskId, Tcb>, near: seq<TaskId>, far: seq<TaskId>, e: int, t: TaskId,
                                    p: nat)
    requires t in tcb && p == InsertPos(WakeValues(tcb, far), tcb[t].wakeValue)
    ensures var q, d := Lift(tcb, near, e) + Lift(tcb, far, e + 1), At(e + 1, WakeOf(tcb, t));
            && (forall j :: 0 <= j < |near| + p ==> q[j].deadline <= d)
            && (p < |far| ==> q[|near| + p].deadline > d)
  {
    InsertSplits(tcb, far, tcb[t].wakeValue);
  }

  lemma {:induction false} InsertSplits(tcb: map<TaskId, Tcb>, s: seq<TaskId>, wake: Tick)
    ensures var p := InsertPos(WakeValues(tcb, s), wake);
            && (forall i :: 0 <= i < p ==> WakeOf(tcb, s[i]) <= wake)
            && (p < |s| ==> WakeOf(tcb, s[p]) > wake)
  {
    var w := WakeValues(tcb, s);
    var p := InsertPos(w, wake);
    forall i | 0 <= i < p
      ensures WakeOf(tcb, s[i]) <= wake
    {
      assert w[i] <= wake;
    }
  }

  /** Beginning a delay of `ticks` at ideal time `now` enters the deadline now + ticks, wherever the
      wrapping wake value sends the task. */
  lemma {:induction false} SleepRefines(k: Kernel, t: TaskId, ticks: Tick, now: int)
    requires t in k.tcb && t !in k.delayed && t !in k.overflow
    requires Residue(now) == k.tick
    ensures Sleepers(Sleep(k, t, Plus(k.tick, ticks)), now) == Enter(Sleepers(k, now), Sleeper(now + ticks, t))
  {
    var wake := Plus(k.tick, ticks);
    var tcb := k.tcb[t := k.tcb[t].(wakeValue := wake)];
    SleepersFrame(k, k.(tcb := tcb), now);
    DeadlineAt(now, ticks);
    if wake < k.tick {
      InsertFar(tcb, k.delayed, k.overflow, Epoch(now), t);
    } else {
      InsertNear(tcb, k.delayed, k.overflow, Epoch(now), t);
    }
  }

  lemma {:induction false} DeadlineAt(now: int, ticks: Tick)
    ensures var wake := Plus(Residue(now), ticks);
            now + ticks == At(if wake < Residue(now) then Epoch(now) + 1 else Epoch(now), wake)
  {
    WithinOneRevolution(now, ticks);
    AtSplit(now + ticks);
  }

  // ---------- ticks ----------

  lemma {:induction false} DelayedOnce(k: Kernel)
    requires Partition(k)
    ensures Distinct(k.delayed)
  {
    forall i, j | 0 <= i < j < |k.delayed|
      ensures k.delayed[i] != k.delayed[j]
    {
      var x := k.delayed[i];
      assert multiset(k.delayed)[x] <= Bag(k)[x] <= 1;
      if x == k.delayed[j] {
        OccursTwice(k.delayed, i, j);
        assert false;
      }
    }
  }

  lemma ExpireNone(q: seq<Sleeper>, now: int)
    requires q != [] ==> q[0].deadline > now
    ensures Expire(q, now) == q
  {
  }

  lemma {:induction false} HeadGone(k: Kernel)
    requires WellFormed(k) && k.delayed != []
    ensures var r := ReadyUp(k, k.delayed[0]);
            r.delayed == k.delayed[1..] && r.overflow == k.overflow && r.tcb == k.tcb
  {
    var t := k.delayed[0];
    assert t in k.delayed;
    Places(k, t);
    DelayedOnce(k);
    WithoutOne(k.delayed, 0);
    WithoutAbsent(k.overflow, t);
    assert Drop(k.delayed, 0) == k.delayed[1..];
  }

  lemma {:induction false} HeadLeaves(k: Kernel, r: Kernel, now: int)
    requires k.delayed != [] && r.delayed == k.delayed[1..] && r.overflow == k.overflow && r.tcb == k.tcb
    ensures var t := k.delayed[0];
            && Sleepers(k, now) != [] && Sleepers(k, now)[0] == Sleeper(At(Epoch(now), WakeOf(k.tcb, t)), t)
            && Sleepers(r, now) == Sleepers(k, now)[1..]
  {
    assert Lift(r.tcb, r.delayed, Epoch(now)) == Lift(k.tcb, k.delayed, Epoch(now))[1..];
  }

  /** Nobody is due when everyone in the current list has a wake value above the tick count. */
  lemma {:induction false} NobodyDue(k: Kernel, now: int)
    requires Residue(now) == k.tick && (k.delayed != [] ==> k.tick < WakeOf(k.tcb, k.delayed[0]))
    ensures Expire(Sleepers(k, now), now) == Sleepers(k, now)
  {
    AtSplit(now);
    var a, b := Lift(k.tcb, k.delayed, Epoch(now)), Lift(k.tcb, k.overflow, Epoch(now) + 1);
    if k.delayed != [] {
      assert (a + b)[0] == a[0];
    } else {
      assert a + b == b;
    }
    ExpireNone(a + b, now);
  }

  lemma {:induction false} DueNow(now: int, v: Tick)
    ensures At(Epoch(now), v) <= now <==> v <= Residue(now)
  {
    AtSplit(now);
  }

  lemma {:induction false} ExpireStep(k: Kernel, now: int)
    requires WellFormed(k) && k.delayed != [] && Residue(now) == k.tick && WakeOf(k.tcb, k.delayed[0]) <= k.tick
    ensures Expire(Sleepers(k, now), now) == Expire(Sleepers(ReadyUp(k, k.delayed[0]), now), now)
  {
    HeadGone(k);
    HeadLeaves(k, ReadyUp(k, k.delayed[0]), now);
    DueNow(now, WakeOf(k.tcb, k.delayed[0]));
  }

  lemma {:induction false} WakeDueEnds(k: Kernel, switch: bool, now: int)
    requires k.delayed != [] ==> k.tick < WakeOf(k.tcb, k.delayed[0])
    ensures Sleepers(WakeDue(k, switch).0, now) == Sleepers(k, now)
  {
    SleepersFrame(k, WakeDue(k, switch).0, now);
  }

  /** What is left to do after one round of the loop. */
  lemma WakeDueOnce(k: Kernel, switch: bool)
    requires k.delayed != [] && WakeOf(k.tcb, k.delayed[0]) <= k.tick
    ensures WakeDue(k, switch)
            == WakeDue(ReadyUp(k, k.delayed[0]), switch || k.PriorityOf(k.delayed[0]) >= k.PriorityOf(k.current))
  {
  }

  lemma {:induction false} DueStepRefines(k: Kernel, now: int)
    requires WellFormed(k) && k.pending == [] && Due(k) && Residue(now) == k.tick
    requires k.delayed != [] && WakeOf(k.tcb, k.delayed[0]) <= k.tick
    ensures var r := ReadyUp(k, k.delayed[0]);
            && WellFormed(r) && r.pending == [] && Due(r) && r.tick == k.tick && |r.delayed| < |k.delayed|
            && Expire(Sleepers(k, now), now) == Expire(Sleepers(r, now), now)
  {
    DueStep(k);
    ExpireStep(k, now);
  }

  /** The unblocking loop wakes the sleepers the ideal queue has due, in its order. */
  lemma {:induction false} WakeDueRefines(k: Kernel, switch: bool, now: int)
    requires WellFormed(k) && k.pending == [] && Due(k) && Residue(now) == k.tick
    ensures Sleepers(WakeDue(k, switch).0, now) == Expire(Sleepers(k, now), now)
    decreases |k.delayed|
  {
    if k.delayed != [] && WakeOf(k.tcb, k.delayed[0]) <= k.tick {
      var t := k.delayed[0];
      var s := switch || k.PriorityOf(t) >= k.PriorityOf(k.current);
      DueStepRefines(k, now);
      WakeDueRefines(ReadyUp(k, t), s, now);
      WakeDueOnce(k, switch);
    } else {
      WakeDueEnds(k, switch, now);
      NobodyDue(k, now);
    }
  }

  lemma {:induction false} AdvanceRefines(k: Kernel, now: int)
    requires WellFormed(k) && Timely(k) && Residue(now) == k.tick
    ensures Residue(now + 1) == Advanced(k).tick && Sleepers(Advanced(k), now + 1) == Sleepers(k, now)
  {
    WithinOneRevolution(now, 1);
    var r := Advanced(k);
    if r.tick == 0 {
      DelayedEmptyAtWrap(k);
      assert Lift(k.tcb, k.delayed, Epoch(now)) == [];
      assert Lift(r.tcb, r.overflow, Epoch(now + 1) + 1) == [];
      assert Lift(r.tcb, r.delayed, Epoch(now + 1)) == Lift(k.tcb, k.overflow, Epoch(now) + 1);
    }
  }

  /** One tick: the ideal clock advances by one and exactly the due sleepers wake, whether or not the
      count wraps and the two lists change roles. */
  lemma {:induction false} LiveTickRefines(k: Kernel, now: int)
    requires Inv(k) && k.pending == [] && Residue(now) == k.tick
    ensures LiveTick(k).0.tick == Residue(now + 1)
    ensures Sleepers(LiveTick(k).0, now + 1) == Expire(Sleepers(k, now), now + 1)
  {
    var r := Advanced(k);
    AdvancedIsDue(k);
    AdvanceRefines(k, now);
    LiveTickIsWakeDue(k);
    LiveTickKeeps(k);
    if r.tick >= r.nextUnblock {
      WakeDueRefines(r, false, now + 1);
    } else {
      if r.delayed != [] {
        assert r.delayed[0] in r.delayed;
      }
      NobodyDue(r, now + 1);
    }
  }

  // ---------- every step, every run ----------

  function Cancels(s: seq<TaskId>): seq<Action>
    decreases |s|
  {
    if s == [] then [] else [Cancel(s[0])] + Cancels(Without(s, s[0]))
  }

  function Advances(n: nat): seq<Action> {
    if n == 0 then [] else [Advance] + Advances(n - 1)
  }

  /** What a critical section means for the ideal machine. */
  ghost function Actions(k: Kernel, c: Call): seq<Action>
    requires Allowed(k, c)
  {
    match c
    case Delete(t) => [Cancel(t)]
    case Suspend(t) => [Cancel(t)]
    case Block(ticks) => [Begin(k.current, ticks)]
    case PlaceOnEvent(_, ticks) => if ticks == MAX_DELAY then [] else [Begin(k.current, ticks)]
    case PlaceOnUnordered(_, _, ticks) => if ticks == MAX_DELAY then [] else [Begin(k.current, ticks)]
    case PlaceRestricted(_, ticks, forever) => if forever then [] else [Begin(k.current, ticks)]
    case RemoveFromEvent(e) => if k.suspensions == 0 then [Cancel(k.EventList(e)[0])] else []
    case RemoveFromUnordered(_, t, _) => [Cancel(t)]
    case IncrementTick => if k.suspensions == 0 then [Advance] else []
    case ResumeAll => if k.suspensions == 1 then Cancels(k.pending) + Advances(k.pendedTicks) else []
    case _ => []
  }

  lemma {:induction false} UnlistQuiet(k: Kernel, t: TaskId)
    requires t !in k.delayed && t !in k.overflow
    ensures Unlist(k, t).delayed == k.delayed && Unlist(k, t).overflow == k.overflow
  {
    WithoutAbsent(k.delayed, t);
    WithoutAbsent(k.overflow, t);
  }

  /** The calling task begins to block. */
  lemma {:induction false} BlockRefines(k: Kernel, forever: bool, ticks: Tick, now: int)
    requires Inv(k) && k.IsReady(k.current) && Residue(now) == k.tick
    ensures Sleepers(BlockOnEvent(k, forever, ticks), now)
            == if forever then Sleepers(k, now) else Enter(Sleepers(k, now), Sleeper(now + ticks, k.current))
  {
    var t := k.current;
    Places(k, t);
    UnlistQuiet(k, t);
    var u := Unlist(k, t);
    SleepersFrame(k, u, now);
    if forever {
      SleepersFrame(u, BlockOnEvent(k, forever, ticks), now);
    } else {
      SleepRefines(u, t, ticks, now);
    }
  }

  lemma {:induction false} PlaceRefines(k: Kernel, l: map<EventId, seq<TaskId>>, forever: bool, ticks: Tick, now: int)
    requires Inv(k) && k.IsReady(k.current) && Residue(now) == k.tick
    ensures Sleepers(BlockOnEvent(k.(events := l), forever, ticks), now)
            == if forever then Sleepers(k, now) else Enter(Sleepers(k, now), Sleeper(now + ticks, k.current))
  {
    BlockRefines(k, forever, ticks, now);
    BlockFrame(k, l, forever, ticks);
    SleepersFrame(BlockOnEvent(k, forever, ticks), BlockOnEvent(k.(events := l), forever, ticks), now);
  }

  lemma BlockFrame(k: Kernel, l: map<EventId, seq<TaskId>>, forever: bool, ticks: Tick)
    requires k.current in k.tcb
    ensures BlockOnEvent(k.(events := l), forever, ticks) == BlockOnEvent(k, forever, ticks).(events := l)
  {
  }

  lemma {:induction false} DrainStepRefines(k: Kernel, now: int)
    requires WellFormed(k) && Timely(k) && k.pending != []
    ensures var u := DrainedOnce(k);
            && WellFormed(u) && Timely(u) && u.pending == Without(k.pending, k.pending[0])
            && DrainPending(k) == DrainPending(u)
            && Sleepers(u, now) == Cancelled(Sleepers(k, now), k.pending[0])
  {
    var t := k.pending[0];
    var r, u := ReadyUp(k, t), DrainedOnce(k);
    DrainStep(k);
    WellFormedFrame(r, u);
    UnlistRefines(k, t, now);
    SleepersFrame(Unlist(k, t), u, now);
  }

  lemma {:induction false} DrainRefines(k: Kernel, now: int)
    requires WellFormed(k) && Timely(k)
    ensures ActAll(Ideal(now, Sleepers(k, now)), Cancels(k.pending)) == Ideal(now, Sleepers(DrainPending(k), now))
    decreases |k.pending|
  {
    if k.pending != [] {
      DrainStepRefines(k, now);
      DrainRefines(DrainedOnce(k), now);
      ActAllFirst(Ideal(now, Sleepers(k, now)), Cancel(k.pending[0]), Cancels(Without(k.pending, k.pending[0])));
    }
  }

  lemma ActAllFirst(i: Ideal, a: Action, rest: seq<Action>)
    ensures ActAll(i, [a] + rest) == ActAll(Act(i, a), rest)
  {
    assert ([a] + rest)[1..] == rest;
  }

  lemma ActOne(i: Ideal, a: Action)
    ensures ActAll(i, [a]) == Act(i, a)
  {
    assert [a][1..] == [];
  }

  lemma AdvanceOnce(now: int, q: seq<Sleeper>, r: seq<Sleeper>, n: nat)
    requires n > 0 && r == Expire(q, now + 1)
    ensures ActAll(Ideal(now, q), Advances(n)) == ActAll(Ideal(now + 1, r), Advances(n - 1))
  {
    ActAllFirst(Ideal(now, q), Advance, Advances(n - 1));
  }

  lemma {:induction false} ReplayStepRefines(k: Kernel, now: int)
    requires Inv(k) && k.pending == [] && Residue(now) == k.tick && k.pendedTicks > 0
    ensures var u := ReplayTick(k);
            && Inv(u) && u.pending == [] && Residue(now + 1) == u.tick
            && Sleepers(u, now + 1) == Expire(Sleepers(k, now), now + 1)
  {
    var u := ReplayTick(k);
    LiveTickRefines(k, now);
    LiveTickKeepsInv(k);
    LiveTickKeeps(k);
    WellFormedFrame(LiveTick(k).0, u);
    SleepersFrame(LiveTick(k).0, u, now + 1);
  }

  lemma {:induction false} ReplayRefines(k: Kernel, now: int)
    requires Inv(k) && k.pending == [] && Residue(now) == k.tick
    ensures Shows(ReplayTicks(k), ActAll(Ideal(now, Sleepers(k, now)), Advances(k.pendedTicks)))
    decreases k.pendedTicks
  {
    if k.pendedTicks == 0 {
      ReplayOfNothing(k, now);
    } else {
      var u := ReplayTick(k);
      ReplayStepRefines(k, now);
      ReplayRefines(u, now + 1);
      AdvanceOnce(now, Sleepers(k, now), Sleepers(u, now + 1), k.pendedTicks);
    }
  }

  lemma ReplayOfNothing(k: Kernel, now: int)
    requires Residue(now) == k.tick && k.pendedTicks == 0
    ensures Shows(ReplayTicks(k), ActAll(Ideal(now, Sleepers(k, now)), Advances(0)))
  {
  }

  lemma {:induction false} ResumeAllRefines(k: Kernel, now: int)
    requires Inv(k) && k.suspensions == 1 && Residue(now) == k.tick
    ensures Shows(Tasks.ResumeAll(k),
                  ActAll(Ideal(now, Sleepers(k, now)), Cancels(k.pending) + Advances(k.pendedTicks)))
  {
    var k1 := k.(suspensions := 0);
    WellFormedFrame(k, k1);
    assert |k.tcb| > 0 by {
      assert k.current in k.tcb.Keys;
    }
    var i := Ideal(now, Sleepers(k, now));
    SleepersFrame(k, k1, now);
    DrainKeeps(k1);
    DrainFrame(k1);
    DrainRefines(k1, now);
    ReplayRefines(DrainPending(k1), now);
    ActAllConcat(i, Cancels(k.pending), Advances(k.pendedTicks));
  }

  // What a step that changes neither list, takes one task off, or puts one task to sleep means.

  lemma MeansNothing(k: Kernel, r: Kernel, i: Ideal)
    requires Shows(k, i) && r.tick == k.tick && Sleepers(r, i.now) == Sleepers(k, i.now)
    ensures Shows(r, ActAll(i, []))
  {
  }

  lemma MeansCancel(k: Kernel, r: Kernel, i: Ideal, t: TaskId)
    requires Shows(k, i) && r.tick == k.tick && Sleepers(r, i.now) == Cancelled(Sleepers(k, i.now), t)
    ensures Shows(r, ActAll(i, [Cancel(t)]))
  {
    ActAllFirst(i, Cancel(t), []);
  }

  lemma MeansBegin(k: Kernel, r: Kernel, i: Ideal, t: TaskId, ticks: Tick)
    requires Shows(k, i) && r.tick == k.tick
    requires Sleepers(r, i.now) == Enter(Sleepers(k, i.now), Sleeper(i.now + ticks, t))
    ensures Shows(r, ActAll(i, [Begin(t, ticks)]))
  {
    ActOne(i, Begin(t, ticks));
    ShowsEntered(k, r, i, t, ticks);
  }

  lemma {:induction false} ResumeQuiet(k: Kernel, t: TaskId, now: int)
    requires Inv(k)
    ensures Sleepers(Tasks.Resume(k, t), now) == Sleepers(k, now)
    ensures Sleepers(Tasks.ResumeFromISR(k, t), now) == Sleepers(k, now)
  {
    Places(k, t);
    if IsSuspended(k, t) {
      UnlistQuiet(k, t);
    }
    SleepersFrame(k, Tasks.Resume(k, t), now);
    SleepersFrame(k, Tasks.ResumeFromISR(k, t), now);
  }

  lemma {:induction false} ReapQuiet(k: Kernel, now: int)
    requires Inv(k) && Allowed(k, Reap)
    ensures Sleepers(Tasks.Reap(k), now) == Sleepers(k, now)
  {
    var t := k.terminated[0];
    assert t in k.terminated;
    Places(k, t);
    UnlistQuiet(k, t);
    SleepersFrame(k, Tasks.Reap(k), now);
  }

  lemma {:induction false} CreateQuiet(k: Kernel, t: TaskId, p: Priority, now: int)
    requires Inv(k) && t !in k.tcb
    ensures Sleepers(Tasks.Create(k, t, p), now) == Sleepers(k, now)
  {
    Places(k, t);
    SleepersFrame(k, Tasks.Create(k, t, p), now);
  }

  lemma {:induction false} ReprioritisedQuiet(k: Kernel, t: TaskId, c: Tcb, now: int)
    requires Inv(k) && t in k.tcb && c.wakeValue == k.tcb[t].wakeValue
    ensures Sleepers(Reprioritised(k, t, c), now) == Sleepers(k, now)
  {
    Places(k, t);
    if k.IsReady(t) {
      UnlistQuiet(k, t);
    }
    SleepersFrame(k, Reprioritised(k, t, c), now);
  }

  lemma {:induction false} DisinheritQuiet(k: Kernel, t: TaskId, now: int)
    requires Inv(k) && t in k.tcb && k.IsReady(t) && k.tcb[t].mutexesHeld > 0
    ensures Sleepers(Tasks.Disinherit(k, t), now) == Sleepers(k, now)
  {
    Places(k, t);
    UnlistQuiet(k, t);
    SleepersFrame(k, Tasks.Disinherit(k, t), now);
  }

  /** The steps that neither block a task nor take one off its delay. */
  ghost predicate Timeless(c: Call) {
    c.Create? || c.Recheck? || c.Reap? || c.Resume? || c.ResumeFromISR? || c.PrioritySet? || c.IncrementHeld?
    || c.Inherit? || c.Disinherit? || c.ResetEventValue? || c.SuspendAll? || c.SwitchContext?
  }

  lemma {:induction false} TimelessStep(k: Kernel, c: Call, now: int)
    requires Inv(k) && Allowed(k, c) && Timeless(c)
    ensures Apply(k, c).tick == k.tick && Sleepers(Apply(k, c), now) == Sleepers(k, now)
  {
    if c.Create? {
      CreateQuiet(k, c.t, c.p, now);
    } else if c.Reap? {
      ReapQuiet(k, now);
    } else if c.Resume? || c.ResumeFromISR? {
      ResumeQuiet(k, c.t, now);
    } else if c.PrioritySet? {
      ReprioritisedQuiet(k, c.t, WithPriority(k.tcb[c.t], c.p), now);
    } else if c.Inherit? {
      ReprioritisedQuiet(k, c.t, WithInherited(k.tcb[c.t], k.PriorityOf(k.current)), now);
    } else if c.Disinherit? {
      DisinheritQuiet(k, k.current, now);
    } else {
      SleepersFrame(k, Apply(k, c), now);
    }
  }

  lemma {:induction false} TakenOff(k: Kernel, r: Kernel, t: TaskId, i: Ideal)
    requires Shows(k, i) && r.tick == k.tick && r.delayed == Without(k.delayed, t)
             && r.overflow == Without(k.overflow, t)
    requires forall x :: WakeOf(r.tcb, x) == WakeOf(k.tcb, x)
    ensures Shows(r, ActAll(i, [Cancel(t)]))
  {
    UnlistRefines(k, t, i.now);
    SleepersFrame(Unlist(k, t), r, i.now);
    MeansCancel(k, r, i, t);
  }

  lemma {:induction false} RemoveRefines(k: Kernel, e: EventId, i: Ideal)
    requires k.EventList(e) != [] && Shows(k, i)
    ensures Shows(Tasks.RemoveFromEvent(k, e),
                  ActAll(i, if k.suspensions == 0 then [Cancel(k.EventList(e)[0])] else []))
  {
    var r := Tasks.RemoveFromEvent(k, e);
    if k.suspensions == 0 {
      TakenOff(k, r, k.EventList(e)[0], i);
    } else {
      SleepersFrame(k, r, i.now);
      MeansNothing(k, r, i);
    }
  }

  lemma {:induction false} BlockingMeans(k: Kernel, l: map<EventId, seq<TaskId>>, forever: bool, ticks: Tick, i: Ideal)
    requires Inv(k) && k.IsReady(k.current) && Shows(k, i)
    ensures Shows(BlockOnEvent(k.(events := l), forever, ticks),
                  ActAll(i, if forever then [] else [Begin(k.current, ticks)]))
  {
    PlaceRefines(k, l, forever, ticks, i.now);
    BlockTick(k.(events := l), forever, ticks);
    if forever {
      MeansNothing(k, BlockOnEvent(k.(events := l), forever, ticks), i);
    } else {
      MeansBegin(k, BlockOnEvent(k.(events := l), forever, ticks), i, k.current, ticks);
    }
  }

  lemma BlockTick(k: Kernel, forever: bool, ticks: Tick)
    requires k.current in k.tcb
    ensures BlockOnEvent(k, forever, ticks).tick == k.tick
  {
  }

  lemma {:induction false} UnorderedMeans(k: Kernel, e: EventId, v: Tick, ticks: Tick, i: Ideal)
    requires Inv(k) && k.IsReady(k.current) && Shows(k, i)
    ensures Shows(Tasks.PlaceOnUnordered(k, e, v, ticks),
                  ActAll(i, if ticks == MAX_DELAY then [] else [Begin(k.current, ticks)]))
  {
    var t := k.current;
    var k' := SetEventValue(k, t, MarkInUse(v));
    RewriteKeeps(k, t, k.tcb[t].(eventValue := MarkInUse(v)));
    SleepersFrame(k, k', i.now);
    BlockingMeans(k', k.events[e := k.EventList(e) + [t]], ticks == MAX_DELAY, ticks, i);
  }

  lemma {:induction false} BlockMeans(k: Kernel, ticks: Tick, i: Ideal)
    requires Inv(k) && k.IsReady(k.current) && Shows(k, i) && ticks > 0
    ensures Shows(Tasks.Block(k, Plus(k.tick, ticks)), ActAll(i, [Begin(k.current, ticks)]))
  {
    BlockRefines(k, false, ticks, i.now);
    MeansBegin(k, Tasks.Block(k, Plus(k.tick, ticks)), i, k.current, ticks);
  }

  lemma {:induction false} OrderedMeans(k: Kernel, e: EventId, ticks: Tick, i: Ideal)
    requires Inv(k) && k.IsReady(k.current) && Shows(k, i)
    ensures Shows(Tasks.PlaceOnEvent(k, e, ticks),
                  ActAll(i, if ticks == MAX_DELAY then [] else [Begin(k.current, ticks)]))
  {
    BlockingMeans(k, k.events[e := InsertByEvent(k.tcb, k.EventList(e), k.current)], ticks == MAX_DELAY, ticks, i);
  }

  lemma {:induction false} RestrictedMeans(k: Kernel, e: EventId, ticks: Tick, forever: bool, i: Ideal)
    requires Inv(k) && k.IsReady(k.current) && Shows(k, i)
    ensures Shows(Tasks.PlaceRestricted(k, e, ticks, forever),
                  ActAll(i, if forever then [] else [Begin(k.current, ticks)]))
  {
    BlockingMeans(k, k.events[e := k.EventList(e) + [k.current]], forever, ticks, i);
  }

  lemma {:induction false} BlockingStep(k: Kernel, c: Call, i: Ideal)
    requires Inv(k) && Allowed(k, c) && Shows(k, i)
    requires c.Block? || c.PlaceOnEvent? || c.PlaceRestricted? || c.PlaceOnUnordered?
    ensures Shows(Apply(k, c), ActAll(i, Actions(k, c)))
  {
    if c.Block? {
      BlockMeans(k, c.ticks, i);
    } else if c.PlaceOnEvent? {
      OrderedMeans(k, c.e, c.ticks, i);
    } else if c.PlaceRestricted? {
      RestrictedMeans(k, c.e, c.ticks, c.forever, i);
    } else {
      UnorderedMeans(k, c.e, c.value, c.ticks, i);
    }
  }

  lemma {:induction false} TimedStep(k: Kernel, c: Call, i: Ideal)
    requires Inv(k) && Allowed(k, c) && Shows(k, i) && !Timeless(c)
    ensures Shows(Apply(k, c), ActAll(i, Actions(k, c)))
  {
    if c.Delete? || c.Suspend? || c.RemoveFromUnordered? {
      TakenOff(k, Apply(k, c), c.t, i);
    } else if c.RemoveFromEvent? {
      RemoveRefines(k, c.e, i);
    } else if c.IncrementTick? || c.ResumeAll? {
      ClockStep(k, c, i);
    } else {
      BlockingStep(k, c, i);
    }
  }

  lemma MeansAdvance(k: Kernel, r: Kernel, i: Ideal)
    requires Shows(k, i) && r.tick == Residue(i.now + 1)
    requires Sleepers(r, i.now + 1) == Expire(Sleepers(k, i.now), i.now + 1)
    ensures Shows(r, ActAll(i, [Advance]))
  {
    ActAllFirst(i, Advance, []);
  }

  lemma {:induction false} TickMeans(k: Kernel, i: Ideal)
    requires Inv(k) && Shows(k, i)
    ensures Shows(Tasks.IncrementTick(k).0, ActAll(i, if k.suspensions == 0 then [Advance] else []))
  {
    if k.suspensions == 0 {
      LiveTickRefines(k, i.now);
      MeansAdvance(k, LiveTick(k).0, i);
    } else {
      var r := k.(pendedTicks := Plus(k.pendedTicks, 1));
      SleepersFrame(k, r, i.now);
      MeansNothing(k, r, i);
    }
  }

  lemma {:induction false} ClockStep(k: Kernel, c: Call, i: Ideal)
    requires Inv(k) && Allowed(k, c) && Shows(k, i) && (c.IncrementTick? || c.ResumeAll?)
    ensures Shows(Apply(k, c), ActAll(i, Actions(k, c)))
  {
    if c.IncrementTick? {
      TickMeans(k, i);
    } else if k.suspensions == 1 {
      ResumeAllRefines(k, i.now);
    } else {
      SleepersFrame(k, k.(suspensions := k.suspensions - 1), i.now);
      MeansNothing(k, k.(suspensions := k.suspensions - 1), i);
    }
  }

  /** Every critical section does to the two wrapping lists what its actions do to the ideal queue. */
  lemma {:induction false} StepRefines(k: Kernel, c: Call, i: Ideal)
    requires Inv(k) && Allowed(k, c) && Shows(k, i)
    ensures Shows(Apply(k, c), ActAll(i, Actions(k, c)))
  {
    if Timeless(c) {
      TimelessStep(k, c, i.now);
      MeansNothing(k, Apply(k, c), i);
    } else {
      TimedStep(k, c, i);
    }
  }

  ghost function ActionsOf(k: Kernel, calls: seq<Call>): seq<Action>
    requires Legal(k, calls)
    decreases |calls|
  {
    if calls == [] then [] else Actions(k, calls[0]) + ActionsOf(Apply(k, calls[0]), calls[1..])
  }

  /** The refinement: in every run the wrapping lists show the state of the ideal machine. */
  lemma {:induction false} RunRefines(k: Kernel, calls: seq<Call>, i: Ideal)
    requires Inv(k) && Legal(k, calls) && Shows(k, i)
    ensures Shows(After(k, calls), ActAll(i, ActionsOf(k, calls)))
    decreases |calls|
  {
    if calls != [] {
      var c := calls[0];
      StepKeeps(k, c);
      StepRefines(k, c, i);
      RunRefines(Apply(k, c), calls[1..], ActAll(i, Actions(k, c)));
      ActAllConcat(i, Actions(k, c), ActionsOf(Apply(k, c), calls[1..]));
    }
  }

  // ---------- exact deadlines ----------

  ghost predicate Ordered(q: seq<Sleeper>) {
    forall i, j :: 0 <= i < j < |q| ==> q[i].deadline <= q[j].deadline
  }

  lemma {:induction false} CancelledMembers(q: seq<Sleeper>, t: TaskId)
    requires Ordered(q)
    ensures Ordered(Cancelled(q, t))
    ensures forall x :: x in Cancelled(q, t) <==> x in q && x.task != t
  {
    if q != [] {
      CancelledMembers(q[1..], t);
      var r := Cancelled(q[1..], t);
      forall j | 0 <= j < |r|
        ensures q[0].deadline <= r[j].deadline
      {
        assert r[j] in q[1..];
      }
    }
  }

  lemma {:induction false} EnterMembers(q: seq<Sleeper>, x: Sleeper)
    requires Ordered(q)
    ensures Ordered(Enter(q, x))
    ensures forall y :: y in Enter(q, x) <==> y in q || y == x
  {
    var p := Behind(q, x.deadline);
    BehindSplits(q, x.deadline);
    PutAt(q, p, x);
    PutMembers(q, p, x);
    var r := Enter(q, x);
    forall i, j | 0 <= i < j < |r|
      ensures r[i].deadline <= r[j].deadline
    {
      assert r[i] == if i < p then q[i] else if i == p then x else q[i - 1];
      assert r[j] == if j < p then q[j] else if j == p then x else q[j - 1];
    }
  }

  lemma {:induction false} BehindSplits(q: seq<Sleeper>, d: int)
    requires Ordered(q)
    ensures forall i :: 0 <= i < |q| ==> (q[i].deadline <= d <==> i < Behind(q, d))
  {
    if q != [] && q[0].deadline <= d {
      BehindSplits(q[1..], d);
      forall i | 0 <= i < |q|
        ensures q[i].deadline <= d <==> i < Behind(q, d)
      {
        if i > 0 {
          assert q[i] == q[1..][i - 1];
        }
      }
    }
  }

  lemma {:induction false} ExpireMembers(q: seq<Sleeper>, now: int)
    requires Ordered(q)
    ensures Ordered(Expire(q, now))
    ensures forall x :: x in Expire(q, now) <==> x in q && x.deadline > now
  {
    if q != [] && q[0].deadline <= now {
      ExpireMembers(q[1..], now);
      assert forall x :: x in q <==> x == q[0] || x in q[1..];
    }
  }

  /** An ideal sleeper that no action cancels is in the queue exactly until its deadline. */
  lemma {:induction false} IdealDelayIsExact(i: Ideal, actions: seq<Action>, x: Sleeper)
    requires Ordered(i.queue) && (x in i.queue <==> i.now < x.deadline)
    requires forall a <- actions :: a.Advance? || a.t != x.task
    ensures var r := ActAll(i, actions); Ordered(r.queue) && (x in r.queue <==> r.now < x.deadline)
    decreases |actions|
  {
    if actions != [] {
      var a := actions[0];
      assert a in actions;
      match a {
        case Begin(t, ticks) => EnterMembers(i.queue, Sleeper(i.now + ticks, t));
        case Cancel(t) => CancelledMembers(i.queue, t);
        case Advance => ExpireMembers(i.queue, i.now + 1);
      }
      IdealDelayIsExact(Act(i, a), actions[1..], x);
    }
  }

  lemma {:induction false} SleepersOrdered(k: Kernel, now: int)
    requires Timely(k) && Residue(now) == k.tick
    ensures Ordered(Sleepers(k, now))
    ensures forall x :: x in Sleepers(k, now) ==> now < x.deadline
  {
    AtSplit(now);
    var e := Epoch(now);
    var a, b := Lift(k.tcb, k.delayed, e), Lift(k.tcb, k.overflow, e + 1);
    var v, w := WakeValues(k.tcb, k.delayed), WakeValues(k.tcb, k.overflow);
    forall i | 0 <= i < |a|
      ensures now < a[i].deadline
    {
      assert k.delayed[i] in k.delayed;
    }
    forall i, j | 0 <= i < j < |a|
      ensures a[i].deadline <= a[j].deadline
    {
      assert v[i] <= v[j];
    }
    forall i, j | 0 <= i < j < |b|
      ensures b[i].deadline <= b[j].deadline
    {
      assert w[i] <= w[j];
    }
  }

  lemma ShowsEntered(k: Kernel, r: Kernel, i: Ideal, t: TaskId, ticks: Tick)
    requires Shows(k, i) && r.tick == k.tick
    requires Sleepers(r, i.now) == Enter(Sleepers(k, i.now), Sleeper(i.now + ticks, t))
    ensures Shows(r, Act(i, Begin(t, ticks)))
  {
  }

  lemma {:induction false} BlockShows(k: Kernel, i: Ideal, ticks: Tick)
    requires Inv(k) && Shows(k, i) && k.IsReady(k.current) && ticks > 0
    ensures Shows(BlockOnEvent(k, false, ticks), Act(i, Begin(k.current, ticks)))
  {
    BlockRefines(k, false, ticks, i.now);
    BlockTick(k, false, ticks);
    ShowsEntered(k, BlockOnEvent(k, false, ticks), i, k.current, ticks);
  }

  /** The tick that reaches a deadline puts the task into its ready list. */
  lemma {:induction false} DueTasksBecomeReady(k: Kernel, now: int, x: Sleeper)
    requires Inv(k) && k.pending == [] && Residue(now) == k.tick && x in Sleepers(k, now)
    ensures x in Sleepers(LiveTick(k).0, now + 1) <==> now + 1 < x.deadline
    ensures x.deadline == now + 1 ==> LiveTick(k).0.IsReady(x.task)
  {
    var r := LiveTick(k).0;
    SleepersOrdered(k, now);
    ExpireMembers(Sleepers(k, now), now + 1);
    LiveTickRefines(k, now);
    LiveTickKeepsInv(k);
    if x.deadline == now + 1 {
      WokenIsReady(k, now, x);
    }
  }

  lemma {:induction false} WokenIsReady(k: Kernel, now: int, x: Sleeper)
    requires Inv(k) && k.pending == [] && Residue(now) == k.tick && x in Sleepers(k, now) && x.deadline == now + 1
    ensures LiveTick(k).0.IsReady(x.task)
  {
    var a := Advanced(k);
    AdvancedIsDue(k);
    AdvanceRefines(k, now);
    LiveTickIsWakeDue(k);
    DueIsDelayed(a, now + 1, x);
    WokenByLoop(a, false, x.task);
  }

  lemma {:induction false} DueIsDelayed(k: Kernel, now: int, x: Sleeper)
    requires Residue(now) == k.tick && x in Sleepers(k, now) && x.deadline == now
    ensures x.task in k.delayed && WakeOf(k.tcb, x.task) == k.tick
  {
    AtSplit(now);
    var e := Epoch(now);
    var a, b := Lift(k.tcb, k.delayed, e), Lift(k.tcb, k.overflow, e + 1);
    assert forall j :: 0 <= j < |b| ==> b[j].deadline > now;
    var j :| 0 <= j < |a| && a[j] == x;
    assert k.delayed[j] == x.task;
  }

  /** The unblocking loop reaches every task due now ... */
  lemma {:induction false} WokenByLoop(k: Kernel, switch: bool, t: TaskId)
    requires WellFormed(k) && k.pending == [] && Due(k) && t in k.delayed && WakeOf(k.tcb, t) <= k.tick
    ensures WakeDue(k, switch).0.IsReady(t)
    decreases |k.delayed|
  {
    var h := k.delayed[0];
    var s := switch || k.PriorityOf(h) >= k.PriorityOf(k.current);
    HeadDue(k, t);
    DueStep(k);
    WakeDueOnce(k, switch);
    if h == t {
      ReadyStays(ReadyUp(k, h), s, t);
    } else {
      WokenByLoop(ReadyUp(k, h), s, t);
    }
  }

  lemma {:induction false} HeadDue(k: Kernel, t: TaskId)
    requires WellFormed(k) && Due(k) && t in k.delayed && WakeOf(k.tcb, t) <= k.tick
    ensures WakeOf(k.tcb, k.delayed[0]) <= k.tick && ReadyUp(k, k.delayed[0]).IsReady(k.delayed[0])
  {
    HeadIsLeast(k.tcb, k.delayed);
    assert k.delayed[0] in k.delayed;
    Places(k, k.delayed[0]);
    ReadyUpKeeps(k, k.delayed[0]);
  }

  /** ... and leaves the ready ones where they are. */
  lemma {:induction false} ReadyStays(k: Kernel, switch: bool, t: TaskId)
    requires WellFormed(k) && k.pending == [] && Due(k) && k.IsReady(t)
    ensures WakeDue(k, switch).0.IsReady(t)
    decreases |k.delayed|
  {
    if k.delayed != [] && WakeOf(k.tcb, k.delayed[0]) <= k.tick {
      var h := k.delayed[0];
      assert h in k.delayed;
      Places(k, t);
      DueStep(k);
      ReadyBesides(k, h, t);
      ReadyStays(ReadyUp(k, h), switch || k.PriorityOf(h) >= k.PriorityOf(k.current), t);
    }
  }

  lemma {:induction false} ReadyBesides(k: Kernel, h: TaskId, t: TaskId)
    requires k.IsReady(t) && h != t
    ensures ReadyUp(k, h).IsReady(t)
  {
    var p := k.PriorityOf(h);
    var l := Unlist(k, h).ready[p];
    PutMembers(l.items, if l.index == 0 then |l.items| else l.index - 1, h);
  }
}
