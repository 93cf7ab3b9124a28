/** Which tasks are ready, asleep, parked, deleted and waiting for an event, and how each call changes that. */
module TaskStates {
  import opened Ticks
  import opened ListModel
  import opened Tasks
  import opened TaskInvariants
  import opened TaskRuns

  /** The tasks by where their list items are.  A task that is neither asleep, parked nor deleted is ready. */
  datatype Census = Census(
    tasks: set<TaskId>,
    asleep: set<TaskId>,    // on one of the two delayed lists
    parked: set<TaskId>,    // on the suspended list
    deleted: set<TaskId>,   // on the termination list
    waiting: set<TaskId>)   // event item linked in, on an event list or in xPendingReadyList
  {
    function Ready(): set<TaskId> {
      tasks - asleep - parked - deleted
    }
  }

  function CensusOf(k: Kernel): Census {
    Census(k.tcb.Keys, Asleep(k), Members(k.suspended), Members(k.terminated), Waiting(k))
  }

  function Members(s: seq<TaskId>): (r: set<TaskId>)
    ensures forall t :: t in r <==> t in s
  {
    set t <- s
  }

  function Asleep(k: Kernel): (r: set<TaskId>)
    ensures forall t :: t in r <==> t in k.delayed || t in k.overflow
  {
    Members(k.delayed) + Members(k.overflow)
  }

  function Waiting(k: Kernel): (r: set<TaskId>)
    ensures forall t :: t in r <==> k.OnEvent(t)
  {
    Members(k.pending) + (set e, t | e in k.events.Keys && t in k.events[e] :: t)
  }

  /** The ready tasks of the census are those in the ready list of their priority. */
  lemma {:induction false} ReadyMeansReady(k: Kernel)
    requires WellFormed(k)
    ensures forall t :: t in CensusOf(k).Ready() <==> k.IsReady(t)
  {
    forall t ensures t in CensusOf(k).Ready() <==> k.IsReady(t) {
      Places(k, t);
    }
  }

  // ---------- eTaskGetState ----------

  datatype TaskState = Running | Runnable | Blocked | Suspended | Deleted   // eTaskState

  /** eTaskGetState: by the lists that hold the two list items of the task. */
  function GetState(k: Kernel, t: TaskId): TaskState {
    if t == k.current then Running
    else if t in k.delayed || t in k.overflow then Blocked
    else if t in k.suspended then (if k.OnEvent(t) then Blocked else Suspended)
    else if t in k.terminated then Deleted
    else Runnable
  }

  // ---------- the transitions ----------

  /** How many ticks a task that is asleep still has to sleep. */
  function TicksLeft(k: Kernel, t: TaskId): int {
    if t in k.delayed then WakeOf(k.tcb, t) - k.tick else WakeOf(k.tcb, t) + MOD - k.tick
  }

  /** The tasks whose time comes within the next n ticks. */
  function DueWithin(k: Kernel, n: nat): set<TaskId> {
    set t | t in Asleep(k) && TicksLeft(k, t) <= n
  }

  /** `gone` have stopped to sleep, to be parked and to wait. */
  function Woken(n: Census, gone: set<TaskId>): Census {
    n.(asleep := n.asleep - gone, parked := n.parked - gone, waiting := n.waiting - gone)
  }

  /** `t` waits for an event, for ever or for some time. */
  function WaitsNow(n: Census, t: TaskId, forever: bool): Census {
    if forever then n.(parked := n.parked + {t}, waiting := n.waiting + {t})
    else n.(asleep := n.asleep + {t}, waiting := n.waiting + {t})
  }

  /** The tasks that the last xTaskResumeAll of a suspension readies. */
  function Roused(k: Kernel): set<TaskId> {
    Members(k.pending) + DueWithin(k, k.pendedTicks)
  }

  /** The census after a call. */
  ghost function Moved(n: Census, k: Kernel, c: Call): Census
    requires Allowed(k, c)
  {
    match c
    case Create(t, _) => n.(tasks := n.tasks + {t})
    case Delete(t) => Woken(n, {t}).(deleted := n.deleted + {t})
    case Reap => n.(tasks := n.tasks - {k.terminated[0]}, deleted := n.deleted - {k.terminated[0]})
    case Suspend(t) => Woken(n, {t}).(parked := n.parked + {t})
    case Resume(t) => if t != k.current && t in n.parked - n.waiting then Woken(n, {t}) else n
    case ResumeFromISR(t) =>
      if t !in n.parked - n.waiting then n
      else if k.suspensions == 0 then Woken(n, {t})
      else n.(waiting := n.waiting + {t})
    case Block(_) => n.(asleep := n.asleep + {k.current})
    case PlaceOnEvent(_, ticks) => WaitsNow(n, k.current, ticks == MAX_DELAY)
    case PlaceOnUnordered(_, _, ticks) => WaitsNow(n, k.current, ticks == MAX_DELAY)
    case PlaceRestricted(_, _, forever) => WaitsNow(n, k.current, forever)
    case RemoveFromEvent(e) => if k.suspensions == 0 then Woken(n, {k.EventList(e)[0]}) else n
    case RemoveFromUnordered(_, t, _) => Woken(n, {t})
    case IncrementTick => if k.suspensions == 0 then Woken(n, DueWithin(k, 1)) else n
    case ResumeAll =>
      if k.suspensions == 1 then Woken(n, Roused(k)) else n
    case _ => n
  }

  // ---------- one list move at a time ----------

  lemma {:induction false} WithoutSet(s: seq<TaskId>, t: TaskId)
    ensures Members(Without(s, t)) == Members(s) - {t}
  {
  }

  lemma UnlistCensus(k: Kernel, t: TaskId)
    ensures var n := CensusOf(k);
            CensusOf(Unlist(k, t))
            == n.(asleep := n.asleep - {t}, parked := n.parked - {t}, deleted := n.deleted - {t})
  {
  }

  lemma UneventCensus(k: Kernel, t: TaskId)
    ensures var n := CensusOf(k); CensusOf(Unevent(k, t)) == n.(waiting := n.waiting - {t})
  {
    var r := Unevent(k, t);
    forall u ensures u in Waiting(r) <==> u in Waiting(k) - {t} {
      if e :| e in k.events && u in k.events[e] && u != t {
        assert e in r.events && u in r.events[e];
      }
    }
  }

  lemma MakeReadyCensus(k: Kernel, t: TaskId)
    ensures CensusOf(MakeReady(k, t)) == CensusOf(k)
  {
  }

  lemma ReadyUpCensus(k: Kernel, t: TaskId)
    requires t !in k.terminated
    ensures CensusOf(ReadyUp(k, t)) == Woken(CensusOf(k), {t})
  {
    UneventCensus(k, t);
    UnlistCensus(Unevent(k, t), t);
    MakeReadyCensus(Unlist(Unevent(k, t), t), t);
    assert CensusOf(k).deleted - {t} == CensusOf(k).deleted;
  }

  lemma PutSet(s: seq<TaskId>, p: nat, t: TaskId)
    requires p <= |s|
    ensures Members(Put(s, p, t)) == Members(s) + {t}
  {
    PutMembers(s, p, t);
  }

  /** The census looks at members, not at control blocks, order, clock or selection. */
  lemma CensusFrame(k: Kernel, r: Kernel)
    requires r.tcb.Keys == k.tcb.Keys && r.suspended == k.suspended && r.terminated == k.terminated
    requires r.pending == k.pending && r.events == k.events
    requires Asleep(r) == Asleep(k)
    ensures CensusOf(r) == CensusOf(k)
  {
    assert forall t :: r.OnEvent(t) <==> k.OnEvent(t);
  }

  lemma FiledCensus(k: Kernel, tcb: map<TaskId, Tcb>, near: seq<TaskId>, far: seq<TaskId>, next: Tick)
    requires tcb.Keys == k.tcb.Keys
    ensures CensusOf(k.(tcb := tcb, delayed := near, overflow := far, nextUnblock := next))
            == CensusOf(k).(asleep := Members(near) + Members(far))
  {
    assert Waiting(k.(tcb := tcb, delayed := near, overflow := far, nextUnblock := next)) == Waiting(k);
  }

  lemma {:induction false} SleepCensus(k: Kernel, t: TaskId, wake: Tick)
    requires t in k.tcb
    ensures CensusOf(Sleep(k, t, wake)) == CensusOf(k).(asleep := Asleep(k) + {t})
  {
    var tcb, r := k.tcb[t := k.tcb[t].(wakeValue := wake)], Sleep(k, t, wake);
    assert r == k.(tcb := tcb, delayed := r.delayed, overflow := r.overflow, nextUnblock := r.nextUnblock);
    FiledCensus(k, tcb, r.delayed, r.overflow, r.nextUnblock);
    if wake < k.tick {
      PutSet(k.overflow, InsertPos(WakeValues(tcb, k.overflow), wake), t);
    } else {
      PutSet(k.delayed, InsertPos(WakeValues(tcb, k.delayed), wake), t);
    }
  }

  // ---------- the calls that do not take time ----------

  /** What the partition says of a task in the terms of the census. */
  lemma CensusPlaces(k: Kernel)
    requires WellFormed(k)
    ensures var n := CensusOf(k);
            && n.asleep !! n.parked && n.asleep !! n.deleted && n.parked !! n.deleted
            && n.waiting <= n.asleep + n.parked && n.asleep + n.parked + n.deleted <= n.tasks
  {
    forall t
      ensures t in Asleep(k) ==> t !in k.suspended && t !in k.terminated && t in k.tcb
      ensures t in k.suspended ==> t !in k.terminated && t in k.tcb
      ensures t in k.terminated ==> t in k.tcb
    {
      Places(k, t);
    }
  }

  lemma {:induction false} ControlMoves(k: Kernel, c: Call)
    requires Inv(k) && Allowed(k, c) && (c.Create? || c.Delete? || c.Suspend? || c.Reap?)
    ensures CensusOf(Apply(k, c)) == Moved(CensusOf(k), k, c)
  {
    CensusPlaces(k);
    if c.Delete? || c.Suspend? {
      UneventCensus(k, c.t);
      UnlistCensus(Unevent(k, c.t), c.t);
      PutSet(Unlist(Unevent(k, c.t), c.t).suspended, |Unlist(Unevent(k, c.t), c.t).suspended|, c.t);
      LastMoves(k, c);
    } else if c.Reap? {
      ReapMoves(k);
    } else {
      CreateMoves(k, c.t, c.p);
    }
  }

  lemma {:induction false} LastMoves(k: Kernel, c: Call)
    requires Inv(k) && Allowed(k, c) && (c.Delete? || c.Suspend?)
    ensures CensusOf(Apply(k, c)) == Moved(CensusOf(k), k, c)
  {
    var u, r := Unlist(Unevent(k, c.t), c.t), Apply(k, c);
    UneventCensus(k, c.t);
    UnlistCensus(Unevent(k, c.t), c.t);
    assert Waiting(r) == Waiting(u) && Asleep(r) == Asleep(u);
    assert CensusOf(k).deleted - {c.t} == CensusOf(k).deleted;
  }

  lemma {:induction false} CreateMoves(k: Kernel, t: TaskId, p: Priority)
    requires Inv(k) && t !in k.tcb
    ensures CensusOf(Tasks.Create(k, t, p)) == CensusOf(k).(tasks := k.tcb.Keys + {t})
  {
    var m := k.(tcb := k.tcb[t := Tcb(p, p, 0, 0, PriorityValue(p))], taskCount := k.taskCount + 1);
    MakeReadyCensus(m, t);
    assert Waiting(m) == Waiting(k) && Asleep(m) == Asleep(k);
  }

  lemma {:induction false} ReapMoves(k: Kernel)
    requires Inv(k) && Allowed(k, Reap)
    ensures CensusOf(Tasks.Reap(k)) == Moved(CensusOf(k), k, Reap)
  {
    var t := k.terminated[0];
    assert t in k.terminated;
    CensusPlaces(k);
    UnlistCensus(k, t);
    var r := Tasks.Reap(k);
    assert Waiting(r) == Waiting(Unlist(k, t)) && Asleep(r) == Asleep(Unlist(k, t));
  }

  /** Off the suspended list and into its ready list. */
  lemma {:induction false} UnparkedCensus(k: Kernel, t: TaskId)
    requires Inv(k) && IsSuspended(k, t)
    ensures CensusOf(MakeReady(Unlist(k, t), t)) == Woken(CensusOf(k), {t})
  {
    CensusPlaces(k);
    UnlistCensus(k, t);
    MakeReadyCensus(Unlist(k, t), t);
    UnparkedIsWoken(CensusOf(k), t);
  }

  lemma UnparkedIsWoken(n: Census, t: TaskId)
    requires t !in n.asleep + n.deleted + n.waiting
    ensures n.(asleep := n.asleep - {t}, parked := n.parked - {t}, deleted := n.deleted - {t}) == Woken(n, {t})
  {
    assert n.deleted - {t} == n.deleted && n.waiting - {t} == n.waiting;
  }

  lemma PendedCensus(k: Kernel, t: TaskId)
    ensures CensusOf(k.(pending := k.pending + [t])) == CensusOf(k).(waiting := Waiting(k) + {t})
  {
    var r := k.(pending := k.pending + [t]);
    assert Waiting(r) == Waiting(k) + {t} && Asleep(r) == Asleep(k);
  }

  lemma {:induction false} ResumeMoves(k: Kernel, t: TaskId)
    requires Inv(k)
    ensures CensusOf(Tasks.Resume(k, t)) == Moved(CensusOf(k), k, Resume(t))
    ensures CensusOf(Tasks.ResumeFromISR(k, t)) == Moved(CensusOf(k), k, ResumeFromISR(t))
  {
    if IsSuspended(k, t) {
      UnparkedCensus(k, t);
      PendedCensus(k, t);
    }
  }

  /** A ready task may be relinked, and a control block rewritten, without moving anybody. */
  lemma {:induction false} ReprioritisedCensus(k: Kernel, t: TaskId, c: Tcb)
    requires Inv(k) && t in k.tcb
    ensures CensusOf(Reprioritised(k, t, c)) == CensusOf(k)
  {
    var k' := k.(tcb := k.tcb[t := c]);
    CensusFrame(k, k');
    if k.IsReady(t) {
      Places(k, t);
      UnlistCensus(k', t);
      MakeReadyCensus(Unlist(k', t), t);
      RelinkedCensus(CensusOf(k'), t);
    }
  }

  lemma RelinkedCensus(n: Census, t: TaskId)
    requires t !in n.asleep + n.parked + n.deleted
    ensures n.(asleep := n.asleep - {t}, parked := n.parked - {t}, deleted := n.deleted - {t}) == n
  {
    assert n.asleep - {t} == n.asleep && n.parked - {t} == n.parked && n.deleted - {t} == n.deleted;
  }

  lemma {:induction false} RewritingMoves(k: Kernel, c: Call)
    requires Inv(k) && Allowed(k, c)
    requires c.PrioritySet? || c.IncrementHeld? || c.Inherit? || c.Disinherit? || c.ResetEventValue?
    ensures CensusOf(Apply(k, c)) == CensusOf(k)
  {
    match c
    case PrioritySet(t, p) => ReprioritisedCensus(k, t, WithPriority(k.tcb[t], p));
    case Inherit(t) => ReprioritisedCensus(k, t, WithInherited(k.tcb[t], k.PriorityOf(k.current)));
    case Disinherit => DisinheritCensus(k, k.current);
    case IncrementHeld => CensusFrame(k, Tasks.IncrementHeld(k));
    case ResetEventValue => CensusFrame(k, Tasks.ResetEventValue(k));
  }

  lemma {:induction false} DisinheritCensus(k: Kernel, t: TaskId)
    requires Inv(k) && t in k.tcb && k.IsReady(t) && k.tcb[t].mutexesHeld > 0
    ensures CensusOf(Tasks.Disinherit(k, t)) == CensusOf(k)
  {
    var c := k.tcb[t];
    if c.priority != c.basePriority && c.mutexesHeld == 1 {
      DisinheritMoves(k, t);
      ReprioritisedCensus(k, t, WithBase(c));
    } else {
      DisinheritStays(k, t);
      CensusFrame(k, k.(tcb := k.tcb[t := c.(mutexesHeld := c.mutexesHeld - 1)]));
    }
  }

  // ---------- blocking ----------

  lemma {:induction false} BlockOnEventCensus(k: Kernel, forever: bool, ticks: Tick)
    requires k.current in k.tcb && k.current !in Asleep(k) && k.current !in k.suspended && k.current !in k.terminated
    ensures var n := CensusOf(k);
            CensusOf(BlockOnEvent(k, forever, ticks))
            == if forever then n.(parked := n.parked + {k.current}) else n.(asleep := n.asleep + {k.current})
  {
    var u := Unlist(k, k.current);
    UnlistCensus(k, k.current);
    RelinkedCensus(CensusOf(k), k.current);
    if forever {
      ParkedCensus(u, k.current);
    } else {
      SleepCensus(u, k.current, Plus(k.tick, ticks));
    }
  }

  lemma ParkedCensus(k: Kernel, t: TaskId)
    ensures CensusOf(k.(suspended := k.suspended + [t])) == CensusOf(k).(parked := CensusOf(k).parked + {t})
  {
    var r := k.(suspended := k.suspended + [t]);
    assert Waiting(r) == Waiting(k) && Asleep(r) == Asleep(k);
    assert CensusOf(r).parked == CensusOf(k).parked + {t};
  }

  /** The calling task's event item goes into an event list, and its control block may be rewritten. */
  lemma {:induction false} JoinedCensus(k: Kernel, e: EventId, p: nat, tcb: map<TaskId, Tcb>)
    requires p <= |k.EventList(e)| && tcb.Keys == k.tcb.Keys
    ensures CensusOf(k.(tcb := tcb, events := k.events[e := Put(k.EventList(e), p, k.current)]))
            == CensusOf(k).(waiting := Waiting(k) + {k.current})
  {
    var r := k.(tcb := tcb, events := k.events[e := Put(k.EventList(e), p, k.current)]);
    PutMembers(k.EventList(e), p, k.current);
    forall u ensures u in Waiting(r) <==> u in Waiting(k) + {k.current} {
      if f :| f in k.events && u in k.events[f] {
        assert f in r.events && u in r.events[f];
      }
      assert e in r.events && k.current in r.events[e];
    }
    assert Asleep(r) == Asleep(k);
  }

  lemma {:induction false} PlacedCensus(k: Kernel, e: EventId, p: nat, tcb: map<TaskId, Tcb>, forever: bool,
                                       ticks: Tick)
    requires Inv(k) && k.IsReady(k.current) && p <= |k.EventList(e)| && tcb.Keys == k.tcb.Keys
    ensures var l := k.(tcb := tcb, events := k.events[e := Put(k.EventList(e), p, k.current)]);
            CensusOf(BlockOnEvent(l, forever, ticks)) == WaitsNow(CensusOf(k), k.current, forever)
  {
    Places(k, k.current);
    JoinedCensus(k, e, p, tcb);
    BlockOnEventCensus(k.(tcb := tcb, events := k.events[e := Put(k.EventList(e), p, k.current)]), forever, ticks);
  }

  lemma {:induction false} BlockingMoves(k: Kernel, c: Call)
    requires Inv(k) && Allowed(k, c) && Blocks(c)
    ensures CensusOf(Apply(k, c)) == Moved(CensusOf(k), k, c)
  {
    Places(k, k.current);
    if c.Block? {
      BlockOnEventCensus(k, false, c.ticks);
    } else {
      var l := k.EventList(c.e);
      PutLast(l, k.current);
      if c.PlaceOnEvent? {
        PlacedCensus(k, c.e, InsertPos(EventValues(k.tcb, l), k.tcb[k.current].eventValue), k.tcb,
                     c.ticks == MAX_DELAY, c.ticks);
      } else if c.PlaceRestricted? {
        PlacedCensus(k, c.e, |l|, k.tcb, c.forever, c.ticks);
      } else {
        PlacedCensus(k, c.e, |l|, SetEventValue(k, k.current, MarkInUse(c.value)).tcb, c.ticks == MAX_DELAY, c.ticks);
      }
    }
  }

  // ---------- waking ----------

  lemma {:induction false} RemoveMoves(k: Kernel, e: EventId)
    requires Inv(k) && k.EventList(e) != []
    ensures CensusOf(Tasks.RemoveFromEvent(k, e))
            == if k.suspensions == 0 then Woken(CensusOf(k), {k.EventList(e)[0]}) else CensusOf(k)
  {
    var t := k.EventList(e)[0];
    if k.suspensions == 0 {
      ReadiedWaiterCensus(k, e, t);
    } else {
      PendedWaiterCensus(k, e, t);
    }
  }

  lemma {:induction false} ReadiedWaiterCensus(k: Kernel, e: EventId, t: TaskId)
    requires WellFormed(k) && k.EventList(e) != [] && t == k.EventList(e)[0] && k.suspensions == 0
    ensures CensusOf(Tasks.RemoveFromEvent(k, e)) == Woken(CensusOf(k), {t})
  {
    WaiterIsLive(k, e, t);
    ReadyUpCensus(k, t);
    NotedCensus(ReadyUp(k, t), k.PriorityOf(t) > k.PriorityOf(k.current));
  }

  lemma NotedCensus(k: Kernel, yes: bool)
    ensures CensusOf(NoteYield(k, yes)) == CensusOf(k)
  {
    CensusFrame(k, NoteYield(k, yes));
  }

  lemma {:induction false} PendedWaiterCensus(k: Kernel, e: EventId, t: TaskId)
    requires k.EventList(e) != [] && t == k.EventList(e)[0] && k.suspensions > 0
    ensures CensusOf(Tasks.RemoveFromEvent(k, e)) == CensusOf(k)
  {
    var u := Unevent(k, t);
    assert t in k.events[e];
    UneventCensus(k, t);
    PendedCensus(u, t);
    NotedCensus(u.(pending := u.pending + [t]), k.PriorityOf(t) > k.PriorityOf(k.current));
    assert CensusOf(k).waiting - {t} + {t} == CensusOf(k).waiting;
  }

  lemma {:induction false} RemoveUnorderedMoves(k: Kernel, e: EventId, t: TaskId, v: Tick)
    requires Inv(k) && Allowed(k, RemoveFromUnordered(e, t, v))
    ensures CensusOf(Tasks.RemoveFromUnordered(k, t, v)) == Woken(CensusOf(k), {t})
  {
    WaiterIsLive(k, e, t);
    var s := SetEventValue(k, t, MarkInUse(v));
    CensusFrame(k, s);
    ReadyUpCensus(s, t);
    CensusFrame(ReadyUp(s, t), Tasks.RemoveFromUnordered(k, t, v));
  }

  // ---------- ticks ----------

  lemma WokenTwice(n: Census, a: set<TaskId>, b: set<TaskId>)
    ensures Woken(Woken(n, a), b) == Woken(n, a + b)
  {
    assert n.asleep - a - b == n.asleep - (a + b);
    assert n.parked - a - b == n.parked - (a + b);
    assert n.waiting - a - b == n.waiting - (a + b);
  }

  lemma WokenNone(n: Census)
    ensures Woken(n, {}) == n
  {
    assert n.asleep - {} == n.asleep && n.parked - {} == n.parked && n.waiting - {} == n.waiting;
  }

  /** The tasks on the current delayed list whose time has come. */
  function DueNow(k: Kernel): set<TaskId> {
    set t | t in k.delayed && WakeOf(k.tcb, t) <= k.tick
  }

  /** The unblocking loop wakes those and nobody else. */
  lemma {:induction false} WakeDueMoves(k: Kernel, switch: bool)
    requires WellFormed(k) && k.pending == [] && Due(k)
    ensures CensusOf(WakeDue(k, switch).0) == Woken(CensusOf(k), DueNow(k))
    decreases |k.delayed|
  {
    if k.delayed != [] && WakeOf(k.tcb, k.delayed[0]) <= k.tick {
      var h, s := k.delayed[0], switch || k.PriorityOf(k.delayed[0]) >= k.PriorityOf(k.current);
      RoundKeeps(k);
      HeadMoves(k);
      WakeDueMoves(ReadyUp(k, h), s);
      RoundMoves(k, switch);
      WokenMore(CensusOf(k), CensusOf(ReadyUp(k, h)), CensusOf(WakeDue(k, switch).0), {h}, DueNow(ReadyUp(k, h)),
                DueNow(k));
    } else {
      NobodyMoves(k, switch);
    }
  }

  lemma RoundMoves(k: Kernel, switch: bool)
    requires k.delayed != [] && WakeOf(k.tcb, k.delayed[0]) <= k.tick
    ensures var h := k.delayed[0];
            WakeDue(k, switch) == WakeDue(ReadyUp(k, h), switch || k.PriorityOf(h) >= k.PriorityOf(k.current))
  {
  }

  lemma WokenMore(n: Census, m: Census, r: Census, a: set<TaskId>, b: set<TaskId>, all: set<TaskId>)
    requires m == Woken(n, a) && r == Woken(m, b) && all == a + b
    ensures r == Woken(n, all)
  {
    WokenTwice(n, a, b);
  }

  /** Nobody changes sides. */
  lemma {:induction false} WakeDueSides(k: Kernel, switch: bool)
    requires WellFormed(k)
    ensures var r := WakeDue(k, switch).0;
            (forall t :: t in r.delayed ==> t in k.delayed) && forall t :: t in r.overflow ==> t in k.overflow
    decreases |k.delayed|
  {
    if k.delayed != [] && WakeOf(k.tcb, k.delayed[0]) <= k.tick {
      assert k.delayed[0] in k.delayed;
      Places(k, k.delayed[0]);
      ReadyUpKeeps(k, k.delayed[0]);
      WakeDueSides(ReadyUp(k, k.delayed[0]), switch || k.PriorityOf(k.delayed[0]) >= k.PriorityOf(k.current));
    }
  }

  lemma {:induction false} HeadMoves(k: Kernel)
    requires WellFormed(k) && k.delayed != [] && WakeOf(k.tcb, k.delayed[0]) <= k.tick
    ensures var h, r := k.delayed[0], ReadyUp(k, k.delayed[0]);
            CensusOf(r) == Woken(CensusOf(k), {h}) && DueNow(k) == {h} + DueNow(r)
  {
    var h := k.delayed[0];
    SleeperIsLive(k, h);
    ReadyUpCensus(k, h);
    OneLessDue(k);
  }

  lemma SleeperIsLive(k: Kernel, t: TaskId)
    requires WellFormed(k) && t in k.delayed
    ensures t !in k.terminated
  {
    Places(k, t);
  }

  lemma OneLessDue(k: Kernel)
    requires k.delayed != [] && WakeOf(k.tcb, k.delayed[0]) <= k.tick
    ensures DueNow(k) == {k.delayed[0]} + DueNow(ReadyUp(k, k.delayed[0]))
  {
  }

  lemma {:induction false} RoundKeeps(k: Kernel)
    requires WellFormed(k) && k.pending == [] && Due(k) && k.delayed != []
    ensures var r := ReadyUp(k, k.delayed[0]);
            WellFormed(r) && r.pending == [] && Due(r) && |r.delayed| < |k.delayed|
  {
    DueStep(k);
  }

  lemma {:induction false} NobodyMoves(k: Kernel, switch: bool)
    requires Due(k) && (k.delayed == [] || k.tick < WakeOf(k.tcb, k.delayed[0]))
    ensures CensusOf(WakeDue(k, switch).0) == Woken(CensusOf(k), DueNow(k)) && DueNow(k) == {}
  {
    if k.delayed != [] {
      HeadIsLeast(k.tcb, k.delayed);
    }
    assert DueNow(k) == {};
    WokenNone(CensusOf(k));
    CensusFrame(k, WakeDue(k, switch).0);
  }

  /** Advancing the clock, list switch included, brings everybody one tick closer. */
  lemma {:induction false} AdvancedMoves(k: Kernel)
    requires WellFormed(k) && Timely(k)
    ensures CensusOf(Advanced(k)) == CensusOf(k) && DueNow(Advanced(k)) == DueWithin(k, 1)
    ensures forall t :: t in Asleep(k) ==> TicksLeft(Advanced(k), t) == TicksLeft(k, t) - 1
  {
    var a := Advanced(k);
    if a.tick == 0 {
      DelayedEmptyAtWrap(k);
    } else {
      forall t | t in k.overflow ensures t !in k.delayed {
        Places(k, t);
      }
    }
    assert Asleep(a) == Asleep(k);
    CensusFrame(k, a);
    forall t ensures t in DueNow(a) <==> t in DueWithin(k, 1) {
    }
  }

  /** One tick wakes those with one tick left, and brings the others one closer. */
  lemma {:induction false} LiveTickMoves(k: Kernel)
    requires WellFormed(k) && Timely(k) && k.pending == []
    ensures CensusOf(LiveTick(k).0) == Woken(CensusOf(k), DueWithin(k, 1))
    ensures forall t :: t in Asleep(LiveTick(k).0) ==> TicksLeft(LiveTick(k).0, t) == TicksLeft(k, t) - 1
  {
    var a := Advanced(k);
    AdvancedIsDue(k);
    AdvancedMoves(k);
    LiveTickIsWakeDue(k);
    if a.tick >= a.nextUnblock {
      WakeDueMoves(a, false);
      SameTicksLeft(a);
    } else {
      assert DueNow(a) == {};
      WokenNone(CensusOf(k));
    }
  }

  lemma {:induction false} SameTicksLeft(k: Kernel)
    requires WellFormed(k)
    ensures forall t :: t in Asleep(WakeDue(k, false).0) ==>
              t in Asleep(k) && TicksLeft(WakeDue(k, false).0, t) == TicksLeft(k, t)
  {
    var r := WakeDue(k, false).0;
    WakeDueKeeps(k, false);
    WakeDueSides(k, false);
    forall t | t in Asleep(r) ensures t in Asleep(k) && TicksLeft(r, t) == TicksLeft(k, t) {
      Places(k, t);
    }
  }

  lemma DueInParts(k: Kernel, r: Kernel, n: nat)
    requires n > 0 && Asleep(r) == Asleep(k) - DueWithin(k, 1)
    requires forall t :: t in Asleep(r) ==> TicksLeft(r, t) == TicksLeft(k, t) - 1
    ensures DueWithin(k, n) == DueWithin(k, 1) + DueWithin(r, n - 1)
  {
    forall t ensures t in DueWithin(k, n) <==> t in DueWithin(k, 1) + DueWithin(r, n - 1) {
    }
  }

  lemma {:induction false} ReplayMoves(k: Kernel)
    requires Inv(k) && k.pending == []
    ensures CensusOf(ReplayTicks(k)) == Woken(CensusOf(k), DueWithin(k, k.pendedTicks))
    decreases k.pendedTicks
  {
    if k.pendedTicks == 0 {
      NobodyIsLate(k);
      WokenNone(CensusOf(k));
    } else {
      var l, u := LiveTick(k).0, ReplayTick(k);
      LiveTickMoves(k);
      ReplayTickKeeps(k);
      CensusFrame(l, u);
      DueInParts(k, u, k.pendedTicks);
      ReplayMoves(u);
      WokenMore(CensusOf(k), CensusOf(u), CensusOf(ReplayTicks(u)), DueWithin(k, 1), DueWithin(u, u.pendedTicks),
                DueWithin(k, k.pendedTicks));
    }
  }

  lemma NobodyIsLate(k: Kernel)
    requires Timely(k)
    ensures DueWithin(k, 0) == {}
  {
  }

  lemma {:induction false} ReplayTickKeeps(k: Kernel)
    requires Inv(k) && k.pending == [] && k.pendedTicks > 0
    ensures Inv(ReplayTick(k)) && ReplayTick(k).pending == []
  {
    LiveTickKeepsInv(k);
    LiveTickKeeps(k);
    WellFormedFrame(LiveTick(k).0, ReplayTick(k));
  }

  // ---------- resuming the scheduler ----------

  lemma {:induction false} DrainMoves(k: Kernel)
    requires WellFormed(k) && Timely(k)
    ensures CensusOf(DrainPending(k)) == Woken(CensusOf(k), Members(k.pending))
    decreases |k.pending|
  {
    if k.pending == [] {
      WokenNone(CensusOf(k));
    } else {
      var h, r := k.pending[0], DrainedOnce(k);
      DrainOnceMoves(k);
      DrainMoves(r);
      MembersHead(k.pending);
      WokenMore(CensusOf(k), CensusOf(r), CensusOf(DrainPending(k)), {h}, Members(r.pending),
                Members(k.pending));
    }
  }

  lemma {:induction false} DrainOnceMoves(k: Kernel)
    requires WellFormed(k) && Timely(k) && k.pending != []
    ensures var h, r := k.pending[0], DrainedOnce(k);
            && WellFormed(r) && Timely(r) && r.pending == Without(k.pending, h)
            && CensusOf(r) == Woken(CensusOf(k), {h})
  {
    var h, r := k.pending[0], DrainedOnce(k);
    HeadIsLive(k);
    DrainStep(k);
    WellFormedFrame(ReadyUp(k, h), r);
    ReadyUpCensus(k, h);
    CensusFrame(ReadyUp(k, h), r);
  }

  lemma HeadIsLive(k: Kernel)
    requires WellFormed(k) && k.pending != []
    ensures k.pending[0] !in k.terminated
  {
    assert k.pending[0] in k.pending;
    Places(k, k.pending[0]);
  }

  lemma MembersHead(s: seq<TaskId>)
    requires s != []
    ensures Members(s) == {s[0]} + Members(Without(s, s[0]))
  {
  }

  /** Draining moves nobody from one delayed list to the other. */
  lemma {:induction false} DrainSides(k: Kernel)
    ensures var r := DrainPending(k);
            (forall t :: t in r.delayed ==> t in k.delayed) && forall t :: t in r.overflow ==> t in k.overflow
    decreases |k.pending|
  {
    if k.pending != [] {
      DrainSides(DrainedOnce(k));
    }
  }

  lemma {:induction false} DrainDue(k: Kernel, n: nat)
    requires WellFormed(k) && Timely(k)
    ensures DueWithin(DrainPending(k), n) == DueWithin(k, n) - Members(k.pending)
  {
    var r, p := DrainPending(k), Members(k.pending);
    DrainMoves(k);
    DrainSides(k);
    DrainFrame(k);
    assert Asleep(r) == Asleep(k) - p;
    forall t | t in Asleep(r) ensures TicksLeft(r, t) == TicksLeft(k, t) {
      Places(k, t);
    }
  }

  lemma {:induction false} ResumeAllMoves(k: Kernel)
    requires Inv(k) && k.suspensions > 0
    ensures k.suspensions > 1 ==> CensusOf(Tasks.ResumeAll(k)) == CensusOf(k)
    ensures k.suspensions == 1 ==> CensusOf(Tasks.ResumeAll(k)) == Woken(CensusOf(k), Roused(k))
  {
    var k1 := k.(suspensions := k.suspensions - 1);
    ResumeShape(k);
    CensusFrame(k, k1);
    if k.suspensions == 1 {
      WellFormedFrame(k, k1);
      LastResumeMoves(k1);
      SameDue(k, k1, k.pendedTicks);
    }
  }

  lemma ResumeShape(k: Kernel)
    requires Inv(k) && k.suspensions > 0
    ensures var k1 := k.(suspensions := k.suspensions - 1);
            Tasks.ResumeAll(k) == if k.suspensions == 1 then ReplayTicks(DrainPending(k1)) else k1
  {
    assert k.current in k.tcb.Keys;
  }

  lemma SameDue(k: Kernel, r: Kernel, n: nat)
    requires r == k.(suspensions := r.suspensions)
    ensures DueWithin(r, n) == DueWithin(k, n)
  {
  }

  lemma {:induction false} LastResumeMoves(k: Kernel)
    requires WellFormed(k) && Timely(k) && k.suspensions == 0
    ensures CensusOf(ReplayTicks(DrainPending(k)))
            == Woken(CensusOf(k), Roused(k))
  {
    var d := DrainPending(k);
    DrainMoves(k);
    DrainDue(k, k.pendedTicks);
    DrainKeeps(k);
    DrainFrame(k);
    ReplayMoves(d);
    WokenMore(CensusOf(k), CensusOf(d), CensusOf(ReplayTicks(d)), Members(k.pending), DueWithin(d, k.pendedTicks),
              Roused(k));
  }

  // ---------- every call ----------

  /** Every call moves exactly the tasks that it is documented to move, and no other. */
  lemma {:induction false} StepMoves(k: Kernel, c: Call)
    requires Inv(k) && Allowed(k, c)
    ensures CensusOf(Apply(k, c)) == Moved(CensusOf(k), k, c)
  {
    if c.Create? || c.Delete? || c.Suspend? || c.Reap? {
      ControlMoves(k, c);
    } else if c.Resume? || c.ResumeFromISR? {
      ResumeMoves(k, c.t);
    } else if c.PrioritySet? || c.IncrementHeld? || c.Inherit? || c.Disinherit? || c.ResetEventValue? {
      RewritingMoves(k, c);
    } else if Blocks(c) {
      BlockingMoves(k, c);
    } else if c.RemoveFromEvent? {
      RemoveMoves(k, c.e);
    } else if c.RemoveFromUnordered? {
      RemoveUnorderedMoves(k, c.e, c.t, c.value);
    } else {
      ClockMoves(k, c);
    }
  }

  lemma {:induction false} ClockMoves(k: Kernel, c: Call)
    requires Inv(k) && Allowed(k, c)
    requires c.Recheck? || c.SuspendAll? || c.SwitchContext? || c.IncrementTick? || c.ResumeAll?
    ensures CensusOf(Apply(k, c)) == Moved(CensusOf(k), k, c)
  {
    if c.IncrementTick? {
      if k.suspensions == 0 {
        LiveTickMoves(k);
      } else {
        CensusFrame(k, Tasks.IncrementTick(k).0);
      }
    } else if c.ResumeAll? {
      ResumeAllMoves(k);
    } else {
      CensusFrame(k, Apply(k, c));
    }
  }

  // ---------- vTaskSuspend and vTaskResume ----------

  /** Nobody but `t` has changed lists. */
  ghost predicate OnlyMoves(k: Kernel, r: Kernel, t: TaskId) {
    forall u :: u != t ==>
      && (u in r.tcb <==> u in k.tcb)
      && (r.IsReady(u) <==> k.IsReady(u))
      && (u in Asleep(r) <==> u in Asleep(k))
      && (u in r.suspended <==> u in k.suspended)
      && (u in r.terminated <==> u in k.terminated)
      && (r.OnEvent(u) <==> k.OnEvent(u))
  }

  lemma {:induction false} MovesOne(k: Kernel, r: Kernel, t: TaskId)
    requires WellFormed(k) && WellFormed(r)
    requires var a, b := CensusOf(k), CensusOf(r);
             && a.tasks + {t} == b.tasks + {t} && a.asleep + {t} == b.asleep + {t} && a.parked + {t} == b.parked + {t}
             && a.deleted + {t} == b.deleted + {t} && a.waiting + {t} == b.waiting + {t}
    ensures OnlyMoves(k, r, t)
  {
    var a, b := CensusOf(k), CensusOf(r);
    ReadyMeansReady(k);
    ReadyMeansReady(r);
    forall u | u != t
      ensures u in a.tasks <==> u in b.tasks
      ensures u in a.asleep <==> u in b.asleep
      ensures u in a.parked <==> u in b.parked
      ensures u in a.deleted <==> u in b.deleted
      ensures u in a.waiting <==> u in b.waiting
    {
      assert u in a.tasks + {t} <==> u in b.tasks + {t};
      assert u in a.asleep + {t} <==> u in b.asleep + {t};
      assert u in a.parked + {t} <==> u in b.parked + {t};
      assert u in a.deleted + {t} <==> u in b.deleted + {t};
      assert u in a.waiting + {t} <==> u in b.waiting + {t};
    }
  }

  /** Waking a task that exists and has not been deleted readies it, and moves nobody else. */
  lemma {:induction false} WokenIsReady(k: Kernel, r: Kernel, t: TaskId)
    requires WellFormed(k) && WellFormed(r) && t in k.tcb && t !in k.terminated
    requires CensusOf(r) == Woken(CensusOf(k), {t})
    ensures r.IsReady(t) && !r.OnEvent(t) && OnlyMoves(k, r, t)
  {
    ReadyMeansReady(r);
    assert t in CensusOf(r).Ready() && t !in CensusOf(r).waiting;
    MovesOne(k, r, t);
  }

  lemma {:induction false} ParkedMovesOne(k: Kernel, r: Kernel, t: TaskId)
    requires WellFormed(k) && WellFormed(r)
    requires CensusOf(r) == Woken(CensusOf(k), {t}).(parked := Woken(CensusOf(k), {t}).parked + {t})
    ensures t in r.suspended && !r.OnEvent(t) && OnlyMoves(k, r, t)
  {
    assert t in CensusOf(r).parked && t !in CensusOf(r).waiting;
    MovesOne(k, r, t);
  }

  lemma {:induction false} PendedMovesOne(k: Kernel, r: Kernel, t: TaskId)
    requires WellFormed(k) && WellFormed(r)
    requires CensusOf(r) == CensusOf(k).(waiting := CensusOf(k).waiting + {t})
    ensures OnlyMoves(k, r, t)
  {
    MovesOne(k, r, t);
  }

  /** vTaskSuspend: the task is on the suspended list and waits for nothing, and eTaskGetState says so. */
  lemma {:induction false} SuspendParks(k: Kernel, t: TaskId)
    requires Inv(k) && t in k.tcb && t !in k.terminated
    ensures var r := Tasks.Suspend(k, t);
            t in r.suspended && !r.OnEvent(t) && (t != k.current ==> GetState(r, t) == Suspended) && OnlyMoves(k, r, t)
  {
    var r := Tasks.Suspend(k, t);
    TaskRuns.SuspendKeeps(k, t);
    LastMoves(k, TaskRuns.Suspend(t));
    ParkedMovesOne(k, r, t);
    SuspendedByLists(r, t);
  }

  lemma SuspendedByLists(k: Kernel, t: TaskId)
    requires WellFormed(k)
    ensures GetState(k, t) == Suspended <==> t != k.current && IsSuspended(k, t)
  {
    Places(k, t);
  }

  /** vTaskResume readies a task exactly if it is suspended, in the sense of eTaskGetState; otherwise it does
      nothing. */
  lemma {:induction false} ResumeReadiesExactlyIf(k: Kernel, t: TaskId)
    requires Inv(k)
    ensures var r := Tasks.Resume(k, t);
            if GetState(k, t) == Suspended then r.IsReady(t) && OnlyMoves(k, r, t) else r == k
  {
    SuspendedByLists(k, t);
    if GetState(k, t) == Suspended {
      ResumeKeeps(k, t);
      SuspendedIsLive(k, t);
      ResumedCensus(k, t);
      WokenIsReady(k, Tasks.Resume(k, t), t);
    }
  }

  lemma {:induction false} ResumedCensus(k: Kernel, t: TaskId)
    requires Inv(k) && IsSuspended(k, t)
    ensures t != k.current ==> CensusOf(Tasks.Resume(k, t)) == Woken(CensusOf(k), {t})
    ensures k.suspensions == 0 ==> CensusOf(Tasks.ResumeFromISR(k, t)) == Woken(CensusOf(k), {t})
  {
    UnparkedCensus(k, t);
  }

  lemma {:induction false} HeldBackCensus(k: Kernel, t: TaskId)
    requires IsSuspended(k, t) && k.suspensions > 0
    ensures CensusOf(Tasks.ResumeFromISR(k, t)) == CensusOf(k).(waiting := CensusOf(k).waiting + {t})
  {
    PendedCensus(k, t);
  }

  /** xTaskResumeFromISR does the same, for the running task too; while the scheduler is suspended it appends the
      task to xPendingReadyList instead. */
  lemma {:induction false} ResumeFromISRReadiesExactlyIf(k: Kernel, t: TaskId)
    requires Inv(k)
    ensures var r := Tasks.ResumeFromISR(k, t);
            if t in k.suspended && !k.OnEvent(t) then
              && OnlyMoves(k, r, t)
              && (if k.suspensions == 0 then r.IsReady(t) && r.pending == k.pending else r.pending == k.pending + [t])
            else r == k
  {
    var r := Tasks.ResumeFromISR(k, t);
    if IsSuspended(k, t) {
      ResumeKeeps(k, t);
      SuspendedIsLive(k, t);
      if k.suspensions == 0 {
        ResumedCensus(k, t);
        WokenIsReady(k, r, t);
      } else {
        HeldBackCensus(k, t);
        PendedMovesOne(k, r, t);
      }
    }
  }
}
