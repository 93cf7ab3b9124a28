/** What every critical section of tasks.c keeps.

    `WellFormed` is the state-list partition with its counters, `Settled` says when xPendingReadyList may
    hold anything, and `Timely` is the order and range of the two delayed lists. */
module TaskInvariants {
  import opened Ticks
  import opened ListModel
  import opened Tasks

  // ---------- the invariants ----------

  ghost function ReadyBag(r: seq<ReadyList>): multiset<TaskId>
  {
    if r == [] then multiset{} else multiset(r[0].items) + ReadyBag(r[1..])
  }

  /** Every occurrence of a generic list item in a state list. */
  ghost function Bag(k: Kernel): multiset<TaskId>
  {
    ReadyBag(k.ready) + multiset(k.delayed) + multiset(k.overflow) + multiset(k.suspended) + multiset(k.terminated)
  }

  /** Each task that exists is linked into exactly one state list, exactly once. */
  ghost predicate Partition(k: Kernel)
  {
    Bag(k) == multiset(k.tcb.Keys)
  }

  /** A task in ready list p has priority p. */
  ghost predicate PlacedByPriority(tcb: map<TaskId, Tcb>, ready: seq<ReadyList>)
  {
    forall p, t :: 0 <= p < |ready| && t in ready[p].items ==> t in tcb && tcb[t].priority == p
  }

  ghost predicate Counted(k: Kernel)
  {
    k.taskCount == |k.tcb| && k.deletedCount == |k.terminated|
  }

  /** An event item is in at most one place: one event list, or the pending-ready list. */
  ghost predicate EventsExclusive(pending: seq<TaskId>, events: map<EventId, seq<TaskId>>)
  {
    && Distinct(pending)
    && (forall e :: e in events ==> Distinct(events[e]))
    && (forall e, t :: e in events && t in events[e] ==> t !in pending)
    && (forall e, f, t :: e in events && f in events && t in events[e] && t in events[f] ==> e == f)
  }

  /** Only tasks in `blocked` have their event item linked in. */
  ghost predicate WaitersAmong(pending: seq<TaskId>, events: map<EventId, seq<TaskId>>, blocked: set<TaskId>)
  {
    && (forall t :: t in pending ==> t in blocked)
    && (forall e, t :: e in events && t in events[e] ==> t in blocked)
  }

  ghost function Blocked(k: Kernel): (r: set<TaskId>)
    ensures forall t :: t in r <==> k.IsBlocked(t)
  {
    (set t <- k.delayed) + (set t <- k.overflow) + (set t <- k.suspended)
  }

  /** No ready list above `top` holds a task. */
  ghost predicate TopBounds(top: nat, ready: seq<ReadyList>)
  {
    forall p :: top < p < |ready| ==> ready[p].items == []
  }

  ghost predicate WellFormed(k: Kernel)
  {
    && Partition(k)
    && PlacedByPriority(k.tcb, k.ready)
    && Counted(k)
    && EventsExclusive(k.pending, k.events)
    && WaitersAmong(k.pending, k.events, Blocked(k))
    && TopBounds(k.topReady, k.ready)
    && k.current in k.tcb
  }

  /** xPendingReadyList is empty whenever the scheduler is not suspended. */
  ghost predicate Settled(k: Kernel)
  {
    k.suspensions == 0 ==> k.pending == []
  }

  /** Both delayed lists are in wake order; the current one lies ahead of the tick count, the overflow
      one behind it, and xNextTaskUnblockTime is never too late. */
  ghost predicate TimelyIn(tcb: map<TaskId, Tcb>, delayed: seq<TaskId>, overflow: seq<TaskId>, tick: Tick, next: Tick)
  {
    && Sorted(WakeValues(tcb, delayed))
    && Sorted(WakeValues(tcb, overflow))
    && (forall t :: t in delayed ==> tick < WakeOf(tcb, t) && next <= WakeOf(tcb, t))
    && (forall t :: t in overflow ==> WakeOf(tcb, t) < tick)
  }

  ghost predicate Timely(k: Kernel)
  {
    TimelyIn(k.tcb, k.delayed, k.overflow, k.tick, k.nextUnblock)
  }

  ghost predicate Inv(k: Kernel)
  {
    WellFormed(k) && Settled(k) && Timely(k)
  }

  // ---------- bags ----------

  lemma PutBag<T>(s: seq<T>, p: nat, x: T)
    requires p <= |s|
    ensures multiset(Put(s, p, x)) == multiset(s) + multiset{x}
  {
    assert s == s[..p] + s[p..];
  }

  lemma {:induction false} UnlistReadyBag(r: seq<ReadyList>, t: TaskId)
    ensures ReadyBag(UnlistReady(r, t)) == ReadyBag(r)[t := 0]
  {
    if r != [] {
      assert UnlistReady(r, t)[1..] == UnlistReady(r[1..], t);
      UnlistReadyBag(r[1..], t);
      WithoutBag(r[0].items, t);
    }
  }

  lemma {:induction false} ReadyBagUpdate(r: seq<ReadyList>, p: nat, l: ReadyList, x: TaskId)
    requires p < |r| && multiset(l.items) == multiset(r[p].items) + multiset{x}
    ensures ReadyBag(r[p := l]) == ReadyBag(r) + multiset{x}
  {
    if p == 0 {
      assert r[p := l][1..] == r[1..];
    } else {
      assert r[p := l][1..] == r[1..][p - 1 := l];
      assert r[1..][p - 1] == r[p];
      ReadyBagUpdate(r[1..], p - 1, l, x);
    }
  }

  lemma {:induction false} ReadyBagMember(r: seq<ReadyList>, t: TaskId)
    ensures t in ReadyBag(r) <==> exists p :: 0 <= p < |r| && t in r[p].items
  {
    if r != [] {
      ReadyBagMember(r[1..], t);
      if t in ReadyBag(r) && t !in r[0].items {
        var p :| 0 <= p < |r[1..]| && t in r[1..][p].items;
        assert t in r[p + 1].items;
      }
      if p :| 0 <= p < |r| && t in r[p].items && p > 0 {
        assert t in r[1..][p - 1].items;
      }
    }
  }

  lemma ClearSum(a: multiset<TaskId>, b: multiset<TaskId>, t: TaskId)
    ensures (a + b)[t := 0] == a[t := 0] + b[t := 0]
  {
  }

  lemma {:induction false} UnlistBag(k: Kernel, t: TaskId)
    ensures Bag(Unlist(k, t)) == Bag(k)[t := 0]
  {
    var r, d, o, s, x := ReadyBag(k.ready), multiset(k.delayed), multiset(k.overflow), multiset(k.suspended),
                         multiset(k.terminated);
    UnlistReadyBag(k.ready, t);
    WithoutBag(k.delayed, t);
    WithoutBag(k.overflow, t);
    WithoutBag(k.suspended, t);
    WithoutBag(k.terminated, t);
    ClearSum(r, d, t);
    ClearSum(r + d, o, t);
    ClearSum(r + d + o, s, t);
    ClearSum(r + d + o + s, x, t);
  }

  lemma AddToSum(a: multiset<TaskId>, b: multiset<TaskId>, x: multiset<TaskId>)
    ensures (a + x) + b == (a + b) + x
  {
  }

  lemma {:induction false} InsertEndBag(l: ReadyList, t: TaskId)
    ensures multiset(l.InsertEnd(t).items) == multiset(l.items) + multiset{t}
  {
    PutBag(l.items, if l.index == 0 then |l.items| else l.index - 1, t);
  }

  lemma {:induction false} MakeReadyBag(k: Kernel, t: TaskId)
    ensures Bag(MakeReady(k, t)) == Bag(k) + multiset{t}
  {
    var p := k.PriorityOf(t);
    InsertEndBag(k.ready[p], t);
    ReadyBagUpdate(k.ready, p, k.ready[p].InsertEnd(t), t);
    var r, d, o, s, x := ReadyBag(k.ready), multiset(k.delayed), multiset(k.overflow), multiset(k.suspended),
                         multiset(k.terminated);
    AddToSum(r, d, multiset{t});
    AddToSum(r + d, o, multiset{t});
    AddToSum(r + d + o, s, multiset{t});
    AddToSum(r + d + o + s, x, multiset{t});
  }

  /** Where a task of a partitioned kernel can be: the membership tests exclude each other. */
  lemma {:induction false} Places(k: Kernel, t: TaskId)
    requires Partition(k) && PlacedByPriority(k.tcb, k.ready)
    ensures t in k.tcb <==> k.IsReady(t) || k.IsBlocked(t) || t in k.terminated
    ensures k.IsReady(t) ==> !k.IsBlocked(t) && t !in k.terminated
    ensures t in k.terminated ==> !k.IsBlocked(t)
    ensures t in k.delayed ==> t !in k.overflow && t !in k.suspended
    ensures t in k.overflow ==> t !in k.suspended
    ensures forall p :: 0 <= p < PRIORITIES ==> (t in k.ready[p].items <==> p == k.PriorityOf(t) && k.IsReady(t))
  {
    ReadyBagMember(k.ready, t);
    assert t in Bag(k) <==> t in k.tcb;
    assert Bag(k)[t] <= 1;
    assert Bag(k)[t] == ReadyBag(k.ready)[t] + multiset(k.delayed)[t] + multiset(k.overflow)[t]
                        + multiset(k.suspended)[t] + multiset(k.terminated)[t];
    if k.IsReady(t) {
      assert ReadyBag(k.ready)[t] >= 1;
    }
  }

  /** The lengths of the state lists add up to the number of tasks. */
  ghost function ReadyLength(r: seq<ReadyList>): nat
  {
    if r == [] then 0 else |r[0].items| + ReadyLength(r[1..])
  }

  lemma {:induction false} ReadyLengthIsBagSize(r: seq<ReadyList>)
    ensures |ReadyBag(r)| == ReadyLength(r)
  {
    if r != [] {
      ReadyLengthIsBagSize(r[1..]);
    }
  }

  lemma {:induction false} LengthsAddUp(k: Kernel)
    requires WellFormed(k)
    ensures k.taskCount == ReadyLength(k.ready) + |k.delayed| + |k.overflow| + |k.suspended| + |k.terminated|
    ensures k.deletedCount == |k.terminated|
  {
    ReadyLengthIsBagSize(k.ready);
    assert |Bag(k)| == |multiset(k.tcb.Keys)| == |k.tcb.Keys| == |k.tcb|;
  }

  // ---------- one task in hand ----------

  /** `WellFormed`, but for one task that is linked in nowhere. */
  ghost predicate Loose(k: Kernel, t: TaskId)
  {
    && t in k.tcb
    && Bag(k) == multiset(k.tcb.Keys)[t := 0]
    && PlacedByPriority(k.tcb, k.ready)
    && Counted(k)
    && EventsExclusive(k.pending, k.events)
    && WaitersAmong(k.pending, k.events, Blocked(k))
    && !k.OnEvent(t)
    && TopBounds(k.topReady, k.ready)
    && k.current in k.tcb
  }

  lemma {:induction false} WithoutDistinct<T(!new)>(s: seq<T>, x: T)
    requires Distinct(s)
    ensures Distinct(Without(s, x))
  {
    if s != [] {
      var r := Without(s[1..], x);
      WithoutDistinct(s[1..], x);
      assert forall y <- r :: y in s[1..];
      assert s[0] !in r;
      if s[0] != x {
        PutDistinct(r, 0, s[0]);
        assert Put(r, 0, s[0]) == [s[0]] + r;
      }
    }
  }

  lemma UneventFacts(k: Kernel, t: TaskId)
    requires EventsExclusive(k.pending, k.events)
    ensures var u := Unevent(k, t);
            && EventsExclusive(u.pending, u.events)
            && !u.OnEvent(t)
            && (forall b :: WaitersAmong(k.pending, k.events, b) ==> WaitersAmong(u.pending, u.events, b - {t}))
  {
    WithoutDistinct(k.pending, t);
    forall e | e in k.events
      ensures Distinct(Without(k.events[e], t))
    {
      WithoutDistinct(k.events[e], t);
    }
  }

  lemma {:induction false} UnlistedReady(tcb: map<TaskId, Tcb>, top: nat, ready: seq<ReadyList>, t: TaskId)
    requires PlacedByPriority(tcb, ready) && TopBounds(top, ready)
    ensures PlacedByPriority(tcb, UnlistReady(ready, t)) && TopBounds(top, UnlistReady(ready, t))
  {
    var u := UnlistReady(ready, t);
    forall p | top < p < |u|
      ensures u[p].items == []
    {
      assert u[p] == Unlink(ready[p], t);
    }
    forall p, x | 0 <= p < |u| && x in u[p].items
      ensures x in tcb && tcb[x].priority == p
    {
      assert u[p] == Unlink(ready[p], t);
      assert x in ready[p].items;
    }
  }

  lemma {:induction false} TakeInHand(k: Kernel, t: TaskId)
    requires WellFormed(k) && t in k.tcb && t !in k.terminated && !k.OnEvent(t)
    ensures Loose(Unlist(k, t), t)
  {
    var u := Unlist(k, t);
    UnlistBag(k, t);
    UnlistedReady(k.tcb, k.topReady, k.ready, t);
    WithoutAbsent(k.terminated, t);
    UnlistedBlocked(k, t);
    StillAmong(k, t, Blocked(k));
  }

  lemma UnlistedBlocked(k: Kernel, t: TaskId)
    ensures Blocked(Unlist(k, t)) == Blocked(k) - {t}
  {
  }

  lemma StillAmong(k: Kernel, t: TaskId, blocked: set<TaskId>)
    requires WaitersAmong(k.pending, k.events, blocked) && !k.OnEvent(t)
    ensures WaitersAmong(k.pending, k.events, blocked - {t})
  {
  }

  /** The event item comes off first, the generic item after it. */
  lemma {:induction false} TakeOff(k: Kernel, t: TaskId)
    requires WellFormed(k) && t in k.tcb && t !in k.terminated
    ensures Loose(Unlist(Unevent(k, t), t), t)
  {
    UneventFacts(k, t);
    var u := Unevent(k, t);
    assert Bag(u) == Bag(k);
    assert Blocked(u) == Blocked(k);
    TakeInHand(u, t);
  }

  lemma {:induction false} ReadyPut(tcb: map<TaskId, Tcb>, top: nat, ready: seq<ReadyList>, t: TaskId)
    requires t in tcb && tcb[t].priority < |ready|
    requires PlacedByPriority(tcb, ready) && TopBounds(top, ready)
    ensures var p := tcb[t].priority;
            var r := ready[p := ready[p].InsertEnd(t)];
            PlacedByPriority(tcb, r) && TopBounds(if p > top then p else top, r) && t in r[p].items
  {
    var p := tcb[t].priority;
    var l := ready[p];
    PutMembers(l.items, if l.index == 0 then |l.items| else l.index - 1, t);
  }

  lemma {:induction false} PutReady(k: Kernel, t: TaskId)
    requires Loose(k, t)
    ensures WellFormed(MakeReady(k, t)) && MakeReady(k, t).IsReady(t)
  {
    MakeReadyBag(k, t);
    ReadyPut(k.tcb, k.topReady, k.ready, t);
    assert Blocked(MakeReady(k, t)) == Blocked(k);
  }

  lemma {:induction false} PutSuspended(k: Kernel, t: TaskId)
    requires Loose(k, t)
    ensures WellFormed(k.(suspended := k.suspended + [t]))
  {
    var r := k.(suspended := k.suspended + [t]);
    assert multiset(r.suspended) == multiset(k.suspended) + multiset{t};
    assert Bag(r) == Bag(k) + multiset{t};
    assert Blocked(r) == Blocked(k) + {t};
  }

  lemma {:induction false} PutTerminated(k: Kernel, t: TaskId)
    requires Loose(k, t)
    ensures WellFormed(k.(terminated := k.terminated + [t], deletedCount := k.deletedCount + 1))
  {
    var r := k.(terminated := k.terminated + [t], deletedCount := k.deletedCount + 1);
    assert multiset(r.terminated) == multiset(k.terminated) + multiset{t};
    assert Bag(r) == Bag(k) + multiset{t};
    assert Blocked(r) == Blocked(k);
  }

  /** Rewriting a control block without touching the priority. */
  lemma {:induction false} Rewrite(k: Kernel, t: TaskId, c: Tcb)
    requires t in k.tcb && c.priority == k.tcb[t].priority
    ensures WellFormed(k) ==> WellFormed(k.(tcb := k.tcb[t := c]))
    ensures Loose(k, t) ==> Loose(k.(tcb := k.tcb[t := c]), t)
  {
    var r := k.(tcb := k.tcb[t := c]);
    assert r.tcb.Keys == k.tcb.Keys;
    assert Bag(r) == Bag(k);
    assert Blocked(r) == Blocked(k);
  }

  lemma {:induction false} PutDelayed(k: Kernel, t: TaskId, p: nat, next: Tick)
    requires Loose(k, t) && p <= |k.delayed|
    ensures WellFormed(k.(delayed := Put(k.delayed, p, t), nextUnblock := next))
  {
    var r := k.(delayed := Put(k.delayed, p, t), nextUnblock := next);
    PutBag(k.delayed, p, t);
    PutMembers(k.delayed, p, t);
    assert Bag(r) == Bag(k) + multiset{t};
    assert Blocked(r) == Blocked(k) + {t};
  }

  lemma {:induction false} PutOverflow(k: Kernel, t: TaskId, p: nat)
    requires Loose(k, t) && p <= |k.overflow|
    ensures WellFormed(k.(overflow := Put(k.overflow, p, t)))
  {
    var r := k.(overflow := Put(k.overflow, p, t));
    PutBag(k.overflow, p, t);
    PutMembers(k.overflow, p, t);
    assert Bag(r) == Bag(k) + multiset{t};
    assert Blocked(r) == Blocked(k) + {t};
  }

  lemma {:induction false} PutAsleep(k: Kernel, t: TaskId, wake: Tick)
    requires Loose(k, t)
    ensures WellFormed(Sleep(k, t, wake)) && Sleep(k, t, wake).IsBlocked(t)
  {
    var c := k.tcb[t].(wakeValue := wake);
    var m := k.(tcb := k.tcb[t := c]);
    Rewrite(k, t, c);
    var s := if wake < k.tick then k.overflow else k.delayed;
    var p := InsertPos(WakeValues(m.tcb, s), wake);
    PutMembers(s, p, t);
    if wake < k.tick {
      PutOverflow(m, t, p);
    } else {
      PutDelayed(m, t, p, if wake < k.nextUnblock then wake else k.nextUnblock);
    }
  }

  lemma PutMembers<T(!new)>(s: seq<T>, p: nat, x: T)
    requires p <= |s|
    ensures forall y :: y in Put(s, p, x) <==> y in s || y == x
  {
    PutBag(s, p, x);
    forall y
      ensures y in Put(s, p, x) <==> y in s || y == x
    {
      assert y in Put(s, p, x) <==> y in multiset(Put(s, p, x));
    }
  }

  lemma {:induction false} PutOnEvent(k: Kernel, t: TaskId, e: EventId, p: nat)
    requires WellFormed(k) && k.IsBlocked(t) && !k.OnEvent(t) && p <= |k.EventList(e)|
    ensures WellFormed(k.(events := k.events[e := Put(k.EventList(e), p, t)]))
  {
    var r := k.(events := k.events[e := Put(k.EventList(e), p, t)]);
    PutMembers(k.EventList(e), p, t);
    PutDistinct(k.EventList(e), p, t);
    assert Bag(r) == Bag(k);
    assert Blocked(r) == Blocked(k);
  }

  // ---------- wake order ----------

  lemma {:induction false} WithoutSorted(tcb: map<TaskId, Tcb>, s: seq<TaskId>, t: TaskId)
    requires Sorted(WakeValues(tcb, s))
    ensures Sorted(WakeValues(tcb, Without(s, t)))
  {
    if s != [] {
      assert WakeValues(tcb, s[1..]) == WakeValues(tcb, s)[1..];
      WithoutSorted(tcb, s[1..], t);
      var r := Without(s[1..], t);
      forall i | 0 <= i < |r|
        ensures WakeOf(tcb, s[0]) <= WakeOf(tcb, r[i])
      {
        assert r[i] in s[1..];
        var j :| 1 <= j < |s| && s[j] == r[i];
        assert WakeValues(tcb, s)[0] <= WakeValues(tcb, s)[j];
      }
      if s[0] != t {
        var w := WakeValues(tcb, [s[0]] + r);
        forall i, j | 0 <= i < j < |w|
          ensures w[i] <= w[j]
        {
          if i > 0 {
            assert WakeValues(tcb, r)[i - 1] <= WakeValues(tcb, r)[j - 1];
          }
        }
      }
    }
  }

  lemma {:induction false} TimelyUnlisted(tcb: map<TaskId, Tcb>, delayed: seq<TaskId>, overflow: seq<TaskId>,
                                          tick: Tick, next: Tick, t: TaskId)
    requires TimelyIn(tcb, delayed, overflow, tick, next)
    ensures TimelyIn(tcb, Without(delayed, t), Without(overflow, t), tick, next)
  {
    WithoutSorted(tcb, delayed, t);
    WithoutSorted(tcb, overflow, t);
  }

  /** Rewriting a control block changes no wake value in the lists if it keeps its own or is in neither. */
  lemma {:induction false} TimelyRewritten(tcb: map<TaskId, Tcb>, delayed: seq<TaskId>, overflow: seq<TaskId>,
                                           tick: Tick, next: Tick, t: TaskId, c: Tcb)
    requires TimelyIn(tcb, delayed, overflow, tick, next)
    requires (t !in delayed && t !in overflow) || c.wakeValue == WakeOf(tcb, t)
    ensures TimelyIn(tcb[t := c], delayed, overflow, tick, next)
  {
    assert WakeValues(tcb[t := c], delayed) == WakeValues(tcb, delayed);
    assert WakeValues(tcb[t := c], overflow) == WakeValues(tcb, overflow);
  }

  lemma {:induction false} InsertSorted(tcb: map<TaskId, Tcb>, s: seq<TaskId>, t: TaskId)
    requires t in tcb && Sorted(WakeValues(tcb, s))
    ensures Sorted(WakeValues(tcb, InsertByWake(tcb, s, t)))
  {
    var p := InsertPos(WakeValues(tcb, s), tcb[t].wakeValue);
    InsertPosStable(WakeValues(tcb, s), tcb[t].wakeValue);
    PutAt(s, p, t);
    PutAt(WakeValues(tcb, s), p, tcb[t].wakeValue);
    assert WakeValues(tcb, Put(s, p, t)) == Put(WakeValues(tcb, s), p, tcb[t].wakeValue);
  }

  lemma {:induction false} TimelySleep(k: Kernel, t: TaskId, wake: Tick)
    requires Timely(k) && t in k.tcb && t !in k.delayed && t !in k.overflow && wake != k.tick
    ensures Timely(Sleep(k, t, wake))
  {
    var c := k.tcb[t].(wakeValue := wake);
    var tcb := k.tcb[t := c];
    TimelyRewritten(k.tcb, k.delayed, k.overflow, k.tick, k.nextUnblock, t, c);
    var s := if wake < k.tick then k.overflow else k.delayed;
    InsertSorted(tcb, s, t);
    PutMembers(s, InsertPos(WakeValues(tcb, s), wake), t);
  }

  /** What holds while the unblocking loop of the tick runs: tasks may be due, none is overdue. */
  ghost predicate Due(k: Kernel)
  {
    && Sorted(WakeValues(k.tcb, k.delayed))
    && Sorted(WakeValues(k.tcb, k.overflow))
    && (forall t :: t in k.delayed ==> k.tick <= WakeOf(k.tcb, t))
    && (forall t :: t in k.overflow ==> WakeOf(k.tcb, t) < k.tick)
  }

  lemma {:induction false} HeadIsLeast(tcb: map<TaskId, Tcb>, s: seq<TaskId>)
    requires s != [] && Sorted(WakeValues(tcb, s))
    ensures forall t :: t in s ==> WakeOf(tcb, s[0]) <= WakeOf(tcb, t)
  {
    var w := WakeValues(tcb, s);
    forall t | t in s
      ensures WakeOf(tcb, s[0]) <= WakeOf(tcb, t)
    {
      var i :| 0 <= i < |s| && s[i] == t;
      assert w[0] <= w[i];
    }
  }

  lemma {:induction false} DueStep(k: Kernel)
    requires WellFormed(k) && k.pending == [] && Due(k) && k.delayed != []
    ensures var r := ReadyUp(k, k.delayed[0]);
            WellFormed(r) && r.pending == [] && Due(r) && r.tcb == k.tcb
              && r.delayed == Without(k.delayed, k.delayed[0])
  {
    var t := k.delayed[0];
    assert t in k.delayed;
    Places(k, t);
    ReadyUpKeeps(k, t);
    WithoutSorted(k.tcb, k.delayed, t);
    WithoutSorted(k.tcb, k.overflow, t);
  }

  lemma {:induction false} WakeDueKeepsInv(k: Kernel, switch: bool)
    requires WellFormed(k) && k.pending == [] && Due(k)
    ensures var r := WakeDue(k, switch).0;
            WellFormed(r) && r.pending == [] && Timely(r)
    decreases |k.delayed|
  {
    if k.delayed != [] && WakeOf(k.tcb, k.delayed[0]) <= k.tick {
      var t := k.delayed[0];
      DueStep(k);
      WakeDueKeepsInv(ReadyUp(k, t), switch || k.PriorityOf(t) >= k.PriorityOf(k.current));
    } else {
      NextUnblockKeeps(k);
    }
  }

  /** How the loop ends: with nobody due, the next unblock time is the least wake value. */
  lemma {:induction false} NextUnblockKeeps(k: Kernel)
    requires WellFormed(k) && k.pending == [] && Due(k)
    requires k.delayed != [] ==> k.tick < WakeOf(k.tcb, k.delayed[0])
    ensures var r := k.(nextUnblock := if k.delayed == [] then MAX_DELAY else WakeOf(k.tcb, k.delayed[0]));
            WellFormed(r) && Timely(r)
  {
    if k.delayed != [] {
      HeadIsLeast(k.tcb, k.delayed);
    }
    WellFormedFrame(k, k.(nextUnblock := if k.delayed == [] then MAX_DELAY else WakeOf(k.tcb, k.delayed[0])));
  }

  /** Well-formedness does not depend on the clock, the nesting depth or the yield flag. */
  lemma WellFormedFrame(k: Kernel, r: Kernel)
    requires WellFormed(k)
    requires r == k.(nextUnblock := r.nextUnblock, suspensions := r.suspensions, yieldPending := r.yieldPending,
                     pendedTicks := r.pendedTicks)
    ensures WellFormed(r)
  {
    assert Blocked(r) == Blocked(k);
    assert Bag(r) == Bag(k);
  }

  lemma {:induction false} ReadyUpKeeps(k: Kernel, t: TaskId)
    requires WellFormed(k) && t in k.tcb && t !in k.terminated
    ensures WellFormed(ReadyUp(k, t)) && ReadyUp(k, t).IsReady(t)
  {
    TakeOff(k, t);
    PutReady(Unlist(Unevent(k, t), t), t);
  }

  lemma HasMember(s: seq<TaskId>)
    requires s != []
    ensures exists t :: t in s
  {
    assert s[0] in s;
  }

  /** The "delayed list is empty" assertion of taskSWITCH_DELAYED_LISTS holds whenever the tick count
      is about to wrap. */
  lemma {:induction false} DelayedEmptyAtWrap(k: Kernel)
    requires Timely(k) && k.tick == MAX_DELAY
    ensures k.delayed == []
  {
    if k.delayed != [] {
      HasMember(k.delayed);
    }
  }

  /** The kernel just before the unblocking loop of the tick. */
  function Advanced(k: Kernel): Kernel {
    var k1 := k.(tick := Plus(k.tick, 1));
    if k1.tick == 0 then SwitchDelayedLists(k1) else k1
  }

  lemma {:induction false} AdvancedIsDue(k: Kernel)
    requires WellFormed(k) && Timely(k)
    ensures var r := Advanced(k);
            && WellFormed(r) && Due(r) && r.pending == k.pending
            && (r.tick < r.nextUnblock ==> Timely(r))
  {
    var r := Advanced(k);
    if r.tick == 0 {
      DelayedEmptyAtWrap(k);
      assert Bag(r) == Bag(k);
      if r.delayed != [] {
        HeadIsLeast(r.tcb, r.delayed);
      }
    }
    assert Blocked(r) == Blocked(k);
  }

  lemma {:induction false} LiveTickKeepsInv(k: Kernel)
    requires Inv(k) && k.pending == []
    ensures Inv(LiveTick(k).0) && LiveTick(k).0.pending == []
  {
    AdvancedIsDue(k);
    var r := Advanced(k);
    if r.tick >= r.nextUnblock {
      WakeDueKeepsInv(r, false);
    }
  }
}
