/** The order in which an event list wakes its waiters, over whole runs of the kernel. */
module WakeOrders {
  import opened Ticks
  import opened ListModel
  import opened Tasks
  import opened TaskInvariants
  import opened TaskRuns
  import opened TaskFrames

  // ---------- orders ----------

  function ArrivalOf(arrived: map<TaskId, nat>, t: TaskId): nat {
    if t in arrived then arrived[t] else 0
  }

  /** By event value, and among equal values by the time of arrival. */
  predicate Ahead(tcb: map<TaskId, Tcb>, arrived: map<TaskId, nat>, x: TaskId, y: TaskId) {
    || EventOf(tcb, x) < EventOf(tcb, y)
    || (EventOf(tcb, x) == EventOf(tcb, y) && ArrivalOf(arrived, x) < ArrivalOf(arrived, y))
  }

  ghost predicate WakeOrder(tcb: map<TaskId, Tcb>, l: seq<TaskId>, arrived: map<TaskId, nat>) {
    forall i, j :: 0 <= i < j < |l| ==> Ahead(tcb, arrived, l[i], l[j])
  }

  ghost predicate Precedes(l: seq<TaskId>, x: TaskId, y: TaskId) {
    exists i, j :: 0 <= i < j < |l| && l[i] == x && l[j] == y
  }

  /** `r` is what is left of `l` after some tasks have left it. */
  ghost predicate Thins(l: seq<TaskId>, r: seq<TaskId>) {
    && (forall t :: t in r ==> t in l)
    && (forall i, j :: 0 <= i < j < |r| ==> Precedes(l, r[i], r[j]))
  }

  lemma ThinsItself(l: seq<TaskId>)
    ensures Thins(l, l)
  {
  }

  lemma ThinsTwice(l: seq<TaskId>, m: seq<TaskId>, r: seq<TaskId>)
    requires Thins(l, m) && Thins(m, r)
    ensures Thins(l, r)
  {
    forall i, j | 0 <= i < j < |r| ensures Precedes(l, r[i], r[j]) {
      assert Precedes(m, r[i], r[j]);
      var a, b :| 0 <= a < b < |m| && m[a] == r[i] && m[b] == r[j];
      assert Precedes(l, m[a], m[b]);
    }
  }

  lemma {:induction false} WithoutThins(l: seq<TaskId>, t: TaskId)
    ensures Thins(l, Without(l, t))
  {
    if l != [] {
      var m := Without(l[1..], t);
      WithoutThins(l[1..], t);
      var r := Without(l, t);
      forall i, j | 0 <= i < j < |r| ensures Precedes(l, r[i], r[j]) {
        if l[0] == t {
          TailPrecedes(l, r[i], r[j]);
        } else if i == 0 {
          assert r[j] == m[j - 1] && m[j - 1] in l[1..];
          var b :| 0 <= b < |l[1..]| && l[1..][b] == r[j];
          assert l[b + 1] == r[j] && l[0] == r[0];
        } else {
          assert r[i] == m[i - 1] && r[j] == m[j - 1];
          TailPrecedes(l, m[i - 1], m[j - 1]);
        }
      }
    }
  }

  lemma TailPrecedes(l: seq<TaskId>, x: TaskId, y: TaskId)
    requires l != [] && Precedes(l[1..], x, y)
    ensures Precedes(l, x, y)
  {
    var a, b :| 0 <= a < b < |l[1..]| && l[1..][a] == x && l[1..][b] == y;
    assert l[a + 1] == x && l[b + 1] == y;
  }

  /** The order survives departures, as long as nobody who stays has changed value. */
  lemma {:induction false} LeaveKeepsWakeOrder(a: map<TaskId, Tcb>, l: seq<TaskId>, b: map<TaskId, Tcb>, r: seq<TaskId>,
                                              arrived: map<TaskId, nat>)
    requires WakeOrder(a, l, arrived) && Thins(l, r)
    requires forall t :: t in r ==> EventOf(b, t) == EventOf(a, t)
    ensures WakeOrder(b, r, arrived)
  {
    forall i, j | 0 <= i < j < |r| ensures Ahead(b, arrived, r[i], r[j]) {
      assert Precedes(l, r[i], r[j]);
      var x, y :| 0 <= x < y < |l| && l[x] == r[i] && l[y] == r[j];
      assert Ahead(a, arrived, l[x], l[y]);
    }
  }

  /** In wake order, the insertion point splits the list into those as urgent as the value and the others. */
  lemma {:induction false} InsertionSplits(tcb: map<TaskId, Tcb>, l: seq<TaskId>, arrived: map<TaskId, nat>, v: Tick)
    requires WakeOrder(tcb, l, arrived)
    ensures forall i :: 0 <= i < |l| ==> (EventOf(tcb, l[i]) <= v <==> i < InsertPos(EventValues(tcb, l), v))
  {
    var values := EventValues(tcb, l);
    forall i, j | 0 <= i < j < |values| ensures values[i] <= values[j] {
      assert Ahead(tcb, arrived, l[i], l[j]);
    }
    InsertPosStable(values, v);
  }

  lemma PlacedPair(tcb: map<TaskId, Tcb>, l: seq<TaskId>, t: TaskId, p: nat, arrived: map<TaskId, nat>, now: nat,
                   i: nat, j: nat)
    requires t !in l && WakeOrder(tcb, l, arrived) && p <= |l| && i < j <= |l|
    requires forall u :: u in l ==> ArrivalOf(arrived, u) < now
    requires forall k :: 0 <= k < |l| ==> (EventOf(tcb, l[k]) <= EventOf(tcb, t) <==> k < p)
    ensures Ahead(tcb, arrived[t := now], Put(l, p, t)[i], Put(l, p, t)[j])
  {
    PutAt(l, p, t);
    if i == p {
      assert l[j - 1] in l;
    } else if j == p {
      assert l[i] in l;
    } else {
      var a, b := if i < p then i else i - 1, if j < p then j else j - 1;
      assert Ahead(tcb, arrived, l[a], l[b]);
      assert l[a] in l && l[b] in l;
    }
  }

  /** vTaskPlaceOnEventList keeps the order: the newcomer goes behind everyone who is as urgent. */
  lemma {:induction false} PlaceKeepsWakeOrder(tcb: map<TaskId, Tcb>, l: seq<TaskId>, t: TaskId,
                                              arrived: map<TaskId, nat>, now: nat)
    requires t in tcb && t !in l && WakeOrder(tcb, l, arrived)
    requires forall u :: u in l ==> ArrivalOf(arrived, u) < now
    ensures WakeOrder(tcb, InsertByEvent(tcb, l, t), arrived[t := now])
  {
    var p := InsertPos(EventValues(tcb, l), tcb[t].eventValue);
    InsertionSplits(tcb, l, arrived, tcb[t].eventValue);
    forall i, j | 0 <= i < j < |l| + 1
      ensures Ahead(tcb, arrived[t := now], Put(l, p, t)[i], Put(l, p, t)[j])
    {
      PlacedPair(tcb, l, t, p, arrived, now, i, j);
    }
  }

  // ---------- what the calls do to an event list ----------

  lemma UneventThins(k: Kernel, t: TaskId, e: EventId)
    ensures Thins(k.EventList(e), Unevent(k, t).EventList(e))
  {
    WithoutThins(k.EventList(e), t);
  }

  lemma {:induction false} WakeDueThins(k: Kernel, switch: bool, e: EventId)
    ensures Thins(k.EventList(e), WakeDue(k, switch).0.EventList(e))
    decreases |k.delayed|
  {
    if k.delayed != [] && WakeOf(k.tcb, k.delayed[0]) <= k.tick {
      var t := k.delayed[0];
      UneventThins(k, t, e);
      WakeDueThins(ReadyUp(k, t), switch || k.PriorityOf(t) >= k.PriorityOf(k.current), e);
      ThinsTwice(k.EventList(e), ReadyUp(k, t).EventList(e), WakeDue(k, switch).0.EventList(e));
    }
  }

  lemma {:induction false} LiveTickThins(k: Kernel, e: EventId)
    ensures Thins(k.EventList(e), LiveTick(k).0.EventList(e))
  {
    LiveTickIsWakeDue(k);
    WakeDueThins(Advanced(k), false, e);
  }

  lemma {:induction false} DrainThins(k: Kernel, e: EventId)
    ensures Thins(k.EventList(e), DrainPending(k).EventList(e))
    decreases |k.pending|
  {
    if k.pending != [] {
      UneventThins(k, k.pending[0], e);
      DrainThins(DrainedOnce(k), e);
      ThinsTwice(k.EventList(e), DrainedOnce(k).EventList(e), DrainPending(k).EventList(e));
    }
  }

  lemma {:induction false} ReplayThins(k: Kernel, e: EventId)
    ensures Thins(k.EventList(e), ReplayTicks(k).EventList(e))
    decreases k.pendedTicks
  {
    if k.pendedTicks > 0 {
      LiveTickThins(k, e);
      LiveTickKeeps(k);
      ReplayThins(ReplayTick(k), e);
      ThinsTwice(k.EventList(e), ReplayTick(k).EventList(e), ReplayTicks(k).EventList(e));
    }
  }

  lemma {:induction false} ResumeThins(k: Kernel, e: EventId)
    requires k.suspensions > 0
    ensures Thins(k.EventList(e), Tasks.ResumeAll(k).EventList(e))
  {
    var k1 := k.(suspensions := k.suspensions - 1);
    if k1.suspensions == 0 && k1.taskCount > 0 {
      DrainThins(k1, e);
      ReplayThins(DrainPending(k1), e);
      ThinsTwice(k.EventList(e), DrainPending(k1).EventList(e), Tasks.ResumeAll(k).EventList(e));
    }
  }

  predicate PlacesOn(c: Call, e: EventId) {
    (c.PlaceOnEvent? || c.PlaceOnUnordered? || c.PlaceRestricted?) && c.e == e
  }

  lemma {:induction false} BlockingElsewhere(k: Kernel, c: Call, e: EventId)
    requires Allowed(k, c) && Blocks(c) && !PlacesOn(c, e)
    ensures Apply(k, c).EventList(e) == k.EventList(e)
  {
    if c.PlaceOnEvent? {
      var l := k.(events := k.events[c.e := InsertByEvent(k.tcb, k.EventList(c.e), k.current)]);
      BlockOnEventKeepsClock(l, c.ticks == MAX_DELAY, c.ticks);
    } else if c.PlaceRestricted? {
      var l := k.(events := k.events[c.e := k.EventList(c.e) + [k.current]]);
      BlockOnEventKeepsClock(l, c.forever, c.ticks);
    }
  }

  lemma {:induction false} StepThins(k: Kernel, c: Call, e: EventId)
    requires Allowed(k, c) && !PlacesOn(c, e)
    ensures Thins(k.EventList(e), Apply(k, c).EventList(e))
  {
    ThinsItself(k.EventList(e));
    if c.IncrementTick? {
      LiveTickThins(k, e);
    } else if c.ResumeAll? {
      ResumeThins(k, e);
    } else if Blocks(c) {
      BlockingElsewhere(k, c, e);
    } else if c.Delete? || c.Suspend? || c.RemoveFromUnordered? || c.RemoveFromEvent? {
      TakingOffThins(k, c, e);
    } else {
      EventsUntouched(k, c);
    }
  }

  lemma {:induction false} TakingOffThins(k: Kernel, c: Call, e: EventId)
    requires Allowed(k, c) && (c.Delete? || c.Suspend? || c.RemoveFromUnordered? || c.RemoveFromEvent?)
    ensures Thins(k.EventList(e), Apply(k, c).EventList(e))
  {
    UneventThins(k, if c.RemoveFromEvent? then k.EventList(c.e)[0] else c.t, e);
  }

  lemma EventsUntouched(k: Kernel, c: Call)
    requires Allowed(k, c) && !c.IncrementTick? && !c.ResumeAll? && !Blocks(c)
    requires !c.Delete? && !c.Suspend? && !c.RemoveFromUnordered? && !c.RemoveFromEvent?
    ensures Apply(k, c).events == k.events
  {
    if c.PrioritySet? || c.Inherit? || c.Disinherit? || c.IncrementHeld? || c.ResetEventValue? {
      RewritingIsElsewhere(k, c);
    }
  }

  lemma RewritingIsElsewhere(k: Kernel, c: Call)
    requires Allowed(k, c)
    requires c.PrioritySet? || c.Inherit? || c.Disinherit? || c.IncrementHeld? || c.ResetEventValue?
    ensures Apply(k, c).events == k.events
  {
  }

  // ---------- item values ----------

  /** An event item value is either in use for event bits or that of the priority the task runs at. */
  predicate ItemIsCurrent(c: Tcb) {
    c.eventValue < VALUE_IN_USE ==> c.eventValue == PriorityValue(c.priority)
  }

  ghost predicate ItemsCurrent(tcb: map<TaskId, Tcb>) {
    forall t :: t in tcb ==> ItemIsCurrent(tcb[t])
  }

  /** vTaskPrioritySet gives a task with an inherited priority the item value of its new base priority, which it
      does not run at: its item stays current exactly if this does not happen. */
  lemma {:induction false} PrioritySetKeepsItemExactlyIf(c: Tcb, p: Priority)
    requires ItemIsCurrent(c) && c.basePriority != p
    ensures ItemIsCurrent(WithPriority(c, p))
            <==> c.basePriority == c.priority || c.priority == p || c.eventValue >= VALUE_IN_USE
  {
  }

  /** Whether a call may write the item value or the priority of `t`. */
  predicate Rewrites(k: Kernel, c: Call, t: TaskId) {
    || ((c.Create? || c.PrioritySet? || c.Inherit? || c.RemoveFromUnordered?) && c.t == t)
    || ((c.Disinherit? || c.PlaceOnUnordered? || c.ResetEventValue?) && k.current == t)
  }

  predicate SameItem(a: Tcb, b: Tcb) {
    a.eventValue == b.eventValue && a.priority == b.priority
  }

  lemma SleepItems(k: Kernel, wake: Tick, t: TaskId)
    requires k.current in k.tcb && t in k.tcb
    ensures Sleep(k, k.current, wake).tcb.Keys == k.tcb.Keys && SameItem(k.tcb[t], Sleep(k, k.current, wake).tcb[t])
  {
    SleepFrame(k, wake);
  }

  lemma BlockOnEventItems(k: Kernel, forever: bool, ticks: Tick, t: TaskId)
    requires k.current in k.tcb && t in k.tcb
    ensures BlockOnEvent(k, forever, ticks).tcb.Keys == k.tcb.Keys
    ensures SameItem(k.tcb[t], BlockOnEvent(k, forever, ticks).tcb[t])
  {
    if !forever {
      SleepItems(Unlist(k, k.current), Plus(k.tick, ticks), t);
    }
  }

  lemma {:induction false} BlockingItems(k: Kernel, c: Call, t: TaskId)
    requires Allowed(k, c) && Blocks(c) && t in k.tcb
    ensures Apply(k, c).tcb.Keys == k.tcb.Keys
    ensures if Rewrites(k, c, t) then Apply(k, c).tcb[t].eventValue >= VALUE_IN_USE
            else SameItem(k.tcb[t], Apply(k, c).tcb[t])
  {
    if c.Block? {
      BlockOnEventItems(k, false, c.ticks, t);
    } else if c.PlaceOnEvent? {
      var l := k.(events := k.events[c.e := InsertByEvent(k.tcb, k.EventList(c.e), k.current)]);
      BlockOnEventItems(l, c.ticks == MAX_DELAY, c.ticks, t);
    } else if c.PlaceRestricted? {
      BlockOnEventItems(k.(events := k.events[c.e := k.EventList(c.e) + [k.current]]), c.forever, c.ticks, t);
    } else {
      UnorderedItems(k, c.e, c.value, c.ticks, t);
    }
  }

  lemma UnorderedItems(k: Kernel, e: EventId, value: Tick, ticks: Tick, t: TaskId)
    requires k.current in k.tcb && t in k.tcb
    ensures Tasks.PlaceOnUnordered(k, e, value, ticks).tcb.Keys == k.tcb.Keys
    ensures var c := Tasks.PlaceOnUnordered(k, e, value, ticks).tcb[t];
            if t == k.current then c.eventValue >= VALUE_IN_USE else SameItem(k.tcb[t], c)
  {
    var v := SetEventValue(k, k.current, MarkInUse(value));
    BlockOnEventItems(v.(events := k.events[e := k.EventList(e) + [k.current]]), ticks == MAX_DELAY, ticks, t);
  }

  /** The calls that touch no control block at all. */
  predicate Bystander(c: Call) {
    Quiet(c) && !Blocks(c) && !c.ResetEventValue? && !c.RemoveFromUnordered?
  }

  lemma {:induction false} BystanderItems(k: Kernel, c: Call)
    requires Allowed(k, c) && Bystander(c)
    ensures Apply(k, c).tcb == k.tcb
  {
    if c.IncrementTick? || c.ResumeAll? {
      ClockFrame(k, c);
    }
  }

  /** The other calls, one control block at a time. */
  lemma {:induction false} LoudItems(k: Kernel, c: Call)
    requires Inv(k) && Allowed(k, c) && !Bystander(c) && !Blocks(c)
    ensures var r := Apply(k, c).tcb;
            && (c.Create? ==> r == k.tcb[c.t := Tcb(c.p, c.p, 0, 0, PriorityValue(c.p))])
            && (c.Reap? ==> r == k.tcb - {k.terminated[0]})
            && (c.PrioritySet? ==> r == k.tcb || (r == k.tcb[c.t := WithPriority(k.tcb[c.t], c.p)]
                                                    && k.tcb[c.t].basePriority != c.p))
            && (c.IncrementHeld? ==>
                  r == k.tcb[k.current := k.tcb[k.current].(mutexesHeld := k.tcb[k.current].mutexesHeld + 1)])
            && (c.Inherit? ==> r == k.tcb || r == k.tcb[c.t := WithInherited(k.tcb[c.t], k.PriorityOf(k.current))])
            && (c.Disinherit? ==> r == k.tcb[k.current := Lowered(k.tcb[k.current])])
            && (c.ResetEventValue? ==>
                  r == k.tcb[k.current := k.tcb[k.current].(eventValue := PriorityValue(k.tcb[k.current].priority))])
            && (c.RemoveFromUnordered? ==> r == k.tcb[c.t := k.tcb[c.t].(eventValue := MarkInUse(c.value))])
  {
    if c.Create? || c.Reap? || c.PrioritySet? {
      LoudFrame(k, c);
    } else if c.Inherit? {
      InheritFrame(k, c.t);
    } else if c.Disinherit? {
      DisinheritFrame(k, k.current);
    }
  }

  /** A call that does not rewrite a task's item leaves its value and priority alone. */
  lemma {:induction false} StepSameItem(k: Kernel, c: Call, t: TaskId)
    requires Inv(k) && Allowed(k, c) && t in k.tcb && t in Apply(k, c).tcb && !Rewrites(k, c, t)
    ensures SameItem(k.tcb[t], Apply(k, c).tcb[t])
  {
    if Bystander(c) {
      BystanderItems(k, c);
    } else if Blocks(c) {
      BlockingItems(k, c, t);
    } else {
      LoudItems(k, c);
    }
  }

  lemma {:induction false} BlockingKeys(k: Kernel, c: Call)
    requires Allowed(k, c) && Blocks(c)
    ensures Apply(k, c).tcb.Keys == k.tcb.Keys
  {
    BlockingItems(k, c, k.current);
  }

  /** No call of vTaskPrioritySet makes an item value out of date. */
  predicate KeepsItems(k: Kernel, c: Call)
    requires c.PrioritySet? ==> c.t in k.tcb
  {
    c.PrioritySet? ==>
      var b := k.tcb[c.t];
      b.basePriority == b.priority || c.p in {b.basePriority, b.priority} || b.eventValue >= VALUE_IN_USE
  }

  lemma {:induction false} StepItems(k: Kernel, c: Call)
    requires Inv(k) && Allowed(k, c) && ItemsCurrent(k.tcb) && KeepsItems(k, c)
    ensures ItemsCurrent(Apply(k, c).tcb)
  {
    var r := Apply(k, c);
    if Bystander(c) {
      BystanderItems(k, c);
    } else if Blocks(c) {
      forall t | t in r.tcb ensures ItemIsCurrent(r.tcb[t]) {
        BlockingKeys(k, c);
        BlockingItems(k, c, t);
      }
    } else {
      LoudItems(k, c);
    }
  }

  ghost predicate AllKeepItems(k: Kernel, calls: seq<Call>)
    requires Legal(k, calls)
    decreases |calls|
  {
    calls == [] || (KeepsItems(k, calls[0]) && AllKeepItems(Apply(k, calls[0]), calls[1..]))
  }

  /** In every run without such a call, each task's event item has the value of its priority or is in use. */
  lemma {:induction false} ItemsStayCurrent(k: Kernel, calls: seq<Call>)
    requires Inv(k) && Legal(k, calls) && ItemsCurrent(k.tcb) && AllKeepItems(k, calls)
    ensures ItemsCurrent(After(k, calls).tcb)
    decreases |calls|
  {
    if calls != [] {
      StepItems(k, calls[0]);
      StepKeeps(k, calls[0]);
      ItemsStayCurrent(Apply(k, calls[0]), calls[1..]);
    }
  }

  // ---------- values handed over in an event item ----------

  /** The calls by which `t` itself gives its event item another value, or somebody delivers one. */
  predicate EndsUse(k: Kernel, c: Call, t: TaskId) {
    || (c.RemoveFromUnordered? && c.t == t)
    || ((c.Disinherit? || c.PlaceOnUnordered? || c.ResetEventValue?) && k.current == t)
  }

  /** A value in use outlives everything else: changes of priority and inheritance included. */
  lemma {:induction false} StepKeepsUse(k: Kernel, c: Call, t: TaskId)
    requires Inv(k) && Allowed(k, c) && t in k.tcb && t in Apply(k, c).tcb && !EndsUse(k, c, t)
    requires k.tcb[t].eventValue >= VALUE_IN_USE
    ensures Apply(k, c).tcb[t].eventValue == k.tcb[t].eventValue
  {
    if Rewrites(k, c, t) {
      LoudItems(k, c);
    } else {
      StepSameItem(k, c, t);
    }
  }

  ghost predicate NeverEndsUse(k: Kernel, calls: seq<Call>, t: TaskId)
    requires Legal(k, calls)
    decreases |calls|
  {
    t in k.tcb && (calls != [] ==> !EndsUse(k, calls[0], t) && NeverEndsUse(Apply(k, calls[0]), calls[1..], t))
  }

  lemma {:induction false} RunKeepsUse(k: Kernel, calls: seq<Call>, t: TaskId)
    requires Inv(k) && Legal(k, calls) && NeverEndsUse(k, calls, t) && k.tcb[t].eventValue >= VALUE_IN_USE
    ensures t in After(k, calls).tcb && After(k, calls).tcb[t].eventValue == k.tcb[t].eventValue
    decreases |calls|
  {
    if calls != [] {
      StepKeepsUse(k, calls[0], t);
      StepKeeps(k, calls[0]);
      RunKeepsUse(Apply(k, calls[0]), calls[1..], t);
    }
  }

  /** What xTaskRemoveFromUnorderedEventList delivers to a waiter is what the waiter finds in its item when it runs
      again, marked as in use, and uxTaskResetEventItemValue then gives the item back the value of the priority. */
  lemma {:induction false} DeliveredValueArrives(k: Kernel, e: EventId, t: TaskId, value: Tick, calls: seq<Call>)
    requires Inv(k) && Allowed(k, RemoveFromUnordered(e, t, value))
    requires Legal(Apply(k, RemoveFromUnordered(e, t, value)), calls)
    requires NeverEndsUse(Apply(k, RemoveFromUnordered(e, t, value)), calls, t)
    ensures var r := After(Apply(k, RemoveFromUnordered(e, t, value)), calls);
            && t in r.tcb && r.tcb[t].eventValue == (if value >= VALUE_IN_USE then value else value + VALUE_IN_USE)
            && (r.current == t ==> HasOwnItem(Tasks.ResetEventValue(r).tcb, t))
  {
    var c := RemoveFromUnordered(e, t, value);
    StepKeeps(k, c);
    LoudItems(k, c);
    RunKeepsUse(Apply(k, c), calls, t);
  }

  /** Likewise the value a task waits with: until it is woken, whoever looks at the item finds that value. */
  lemma {:induction false} WaitedValueStays(k: Kernel, e: EventId, value: Tick, ticks: Tick, calls: seq<Call>)
    requires Inv(k) && Allowed(k, PlaceOnUnordered(e, value, ticks))
    requires Legal(Apply(k, PlaceOnUnordered(e, value, ticks)), calls)
    requires NeverEndsUse(Apply(k, PlaceOnUnordered(e, value, ticks)), calls, k.current)
    ensures var r := After(Apply(k, PlaceOnUnordered(e, value, ticks)), calls);
            && k.current in r.tcb
            && r.tcb[k.current].eventValue == if value >= VALUE_IN_USE then value else value + VALUE_IN_USE
  {
    var c := PlaceOnUnordered(e, value, ticks);
    StepKeeps(k, c);
    PlacedValue(k, e, value, ticks);
    RunKeepsUse(Apply(k, c), calls, k.current);
  }

  lemma PlacedValue(k: Kernel, e: EventId, value: Tick, ticks: Tick)
    requires k.current in k.tcb
    ensures k.current in Tasks.PlaceOnUnordered(k, e, value, ticks).tcb
    ensures Tasks.PlaceOnUnordered(k, e, value, ticks).tcb[k.current].eventValue == MarkInUse(value)
  {
    var v := SetEventValue(k, k.current, MarkInUse(value));
    BlockOnEventItems(v.(events := k.events[e := k.EventList(e) + [k.current]]), ticks == MAX_DELAY, ticks, k.current);
  }

  // ---------- runs ----------

  predicate HasOwnItem(tcb: map<TaskId, Tcb>, t: TaskId) {
    t in tcb && tcb[t].eventValue == PriorityValue(tcb[t].priority)
  }

  /** The waiters are in wake order by their priorities, and all came before `now`. */
  ghost predicate Queued(tcb: map<TaskId, Tcb>, l: seq<TaskId>, arrived: map<TaskId, nat>, now: nat) {
    && WakeOrder(tcb, l, arrived)
    && (forall t :: t in l ==> HasOwnItem(tcb, t) && t in arrived && arrived[t] < now)
  }

  /** A call under which `e` is an event list of queues: tasks join it by vTaskPlaceOnEventList alone and with the
      item value of their priority, and the priority of a task that waits on it is not changed. */
  predicate Orderly(k: Kernel, c: Call, e: EventId) {
    && (PlacesOn(c, e) ==> c.PlaceOnEvent? && HasOwnItem(k.tcb, k.current))
    && (c.PrioritySet? || c.Inherit? ==> c.t !in k.EventList(e))
  }

  /** The arrivals after a call made at time `now`. */
  function Noted(k: Kernel, c: Call, e: EventId, arrived: map<TaskId, nat>, now: nat): map<TaskId, nat> {
    if PlacesOn(c, e) then arrived[k.current := now] else arrived
  }

  /** A task that waits for an event does not run. */
  lemma {:induction false} WaitersAreNotReady(k: Kernel, e: EventId, t: TaskId)
    requires Inv(k) && t in k.EventList(e)
    ensures !k.IsReady(t) && t in k.tcb && t !in k.pending
  {
    assert t in k.events[e];
    Places(k, t);
  }

  /** What a waiter that stays on the list sorts by is not changed. */
  lemma {:induction false} WaiterKeepsItem(k: Kernel, c: Call, e: EventId, t: TaskId)
    requires Inv(k) && Allowed(k, c) && Orderly(k, c, e) && t in k.EventList(e) && HasOwnItem(k.tcb, t)
    requires t in Apply(k, c).EventList(e)
    ensures t in Apply(k, c).tcb && SameItem(k.tcb[t], Apply(k, c).tcb[t])
  {
    StepKeeps(k, c);
    WaitersAreNotReady(Apply(k, c), e, t);
    WaitersAreNotReady(k, e, t);
    if !Rewrites(k, c, t) {
      StepSameItem(k, c, t);
    } else if c.RemoveFromUnordered? {
      RemovedIsGone(k, c.t, c.value, e);
    } else {
      RewritesOfWaiters(k, c, e, t);
      LoudItems(k, c);
    }
  }

  /** The one call that may write the item of a waiter is made by the waiter, before it is switched out. */
  lemma RewritesOfWaiters(k: Kernel, c: Call, e: EventId, t: TaskId)
    requires Allowed(k, c) && Orderly(k, c, e) && Rewrites(k, c, t) && !c.RemoveFromUnordered?
    requires t in k.EventList(e) && t in k.tcb && !k.IsReady(t)
    ensures c.ResetEventValue? && k.current == t
  {
  }

  lemma RemovedIsGone(k: Kernel, t: TaskId, value: Tick, e: EventId)
    requires t in k.tcb
    ensures t !in Tasks.RemoveFromUnordered(k, t, value).EventList(e)
  {
  }

  lemma {:induction false} PlaceQueues(k: Kernel, e: EventId, ticks: Tick, arrived: map<TaskId, nat>, now: nat)
    requires Inv(k) && Allowed(k, PlaceOnEvent(e, ticks)) && HasOwnItem(k.tcb, k.current)
    requires Queued(k.tcb, k.EventList(e), arrived, now)
    ensures var r := Apply(k, PlaceOnEvent(e, ticks));
            Queued(r.tcb, r.EventList(e), arrived[k.current := now], now + 1)
  {
    var c, l, a := PlaceOnEvent(e, ticks), k.EventList(e), arrived[k.current := now];
    if k.current in l {
      WaitersAreNotReady(k, e, k.current);
    }
    var m := InsertByEvent(k.tcb, l, k.current);
    InsertQueues(k.tcb, l, k.current, arrived, now);
    PlacedList(k, e, ticks);
    forall t | t in m ensures t in Apply(k, c).tcb && SameItem(k.tcb[t], Apply(k, c).tcb[t]) {
      BlockingItems(k, c, t);
    }
    SameItemsQueue(k.tcb, Apply(k, c).tcb, m, a, now + 1);
  }

  lemma {:induction false} InsertQueues(tcb: map<TaskId, Tcb>, l: seq<TaskId>, t: TaskId, arrived: map<TaskId, nat>,
                                       now: nat)
    requires HasOwnItem(tcb, t) && t !in l && Queued(tcb, l, arrived, now)
    ensures Queued(tcb, InsertByEvent(tcb, l, t), arrived[t := now], now + 1)
  {
    PlaceKeepsWakeOrder(tcb, l, t, arrived, now);
    PutMembers(l, InsertPos(EventValues(tcb, l), tcb[t].eventValue), t);
  }

  lemma {:induction false} SameItemsQueue(a: map<TaskId, Tcb>, b: map<TaskId, Tcb>, l: seq<TaskId>,
                                         arrived: map<TaskId, nat>, now: nat)
    requires Queued(a, l, arrived, now)
    requires forall t :: t in l ==> t in b && SameItem(a[t], b[t])
    ensures Queued(b, l, arrived, now)
  {
    ThinsItself(l);
    LeaveKeepsWakeOrder(a, l, b, l, arrived);
  }

  lemma PlacedList(k: Kernel, e: EventId, ticks: Tick)
    requires k.current in k.tcb
    ensures Tasks.PlaceOnEvent(k, e, ticks).EventList(e) == InsertByEvent(k.tcb, k.EventList(e), k.current)
  {
  }

  /** Every call keeps the waiters in wake order. */
  lemma {:induction false} StepQueues(k: Kernel, c: Call, e: EventId, arrived: map<TaskId, nat>, now: nat)
    requires Inv(k) && Allowed(k, c) && Orderly(k, c, e) && Queued(k.tcb, k.EventList(e), arrived, now)
    ensures Queued(Apply(k, c).tcb, Apply(k, c).EventList(e), Noted(k, c, e, arrived, now), now + 1)
  {
    if PlacesOn(c, e) {
      PlaceQueues(k, e, c.ticks, arrived, now);
    } else {
      var r := Apply(k, c);
      StepThins(k, c, e);
      forall t | t in r.EventList(e) ensures t in r.tcb && SameItem(k.tcb[t], r.tcb[t]) {
        WaiterKeepsItem(k, c, e, t);
      }
      LeaveKeepsWakeOrder(k.tcb, k.EventList(e), r.tcb, r.EventList(e), arrived);
    }
  }

  ghost predicate AllOrderly(k: Kernel, calls: seq<Call>, e: EventId)
    requires Legal(k, calls)
    decreases |calls|
  {
    calls == [] || (Orderly(k, calls[0], e) && AllOrderly(Apply(k, calls[0]), calls[1..], e))
  }

  /** At which call of a run each task last joined `e`, counting from `now`. */
  ghost function Arrivals(k: Kernel, calls: seq<Call>, e: EventId, arrived: map<TaskId, nat>, now: nat)
    : map<TaskId, nat>
    requires Legal(k, calls)
    decreases |calls|
  {
    if calls == [] then arrived
    else Arrivals(Apply(k, calls[0]), calls[1..], e, Noted(k, calls[0], e, arrived, now), now + 1)
  }

  lemma {:induction false} RunQueues(k: Kernel, calls: seq<Call>, e: EventId, arrived: map<TaskId, nat>, now: nat)
    requires Inv(k) && Legal(k, calls) && AllOrderly(k, calls, e) && Queued(k.tcb, k.EventList(e), arrived, now)
    ensures var r := After(k, calls);
            Queued(r.tcb, r.EventList(e), Arrivals(k, calls, e, arrived, now), now + |calls|)
    decreases |calls|
  {
    if calls != [] {
      StepQueues(k, calls[0], e, arrived, now);
      StepKeeps(k, calls[0]);
      RunQueues(Apply(k, calls[0]), calls[1..], e, Noted(k, calls[0], e, arrived, now), now + 1);
    }
  }

  /** `x` is to be woken before `y`: it has the higher priority, or the same one and has waited longer. */
  predicate Before(k: Kernel, arrived: map<TaskId, nat>, x: TaskId, y: TaskId) {
    || k.PriorityOf(x) > k.PriorityOf(y)
    || (k.PriorityOf(x) == k.PriorityOf(y) && ArrivalOf(arrived, x) < ArrivalOf(arrived, y))
  }

  /** The first waiter is to be woken before all others. */
  ghost predicate HeadIsNext(k: Kernel, l: seq<TaskId>, arrived: map<TaskId, nat>) {
    forall j :: 0 < j < |l| ==> Before(k, arrived, l[0], l[j])
  }

  lemma {:induction false} QueuedBefore(k: Kernel, l: seq<TaskId>, arrived: map<TaskId, nat>, now: nat, i: nat, j: nat)
    requires Queued(k.tcb, l, arrived, now) && i < j < |l|
    ensures Before(k, arrived, l[i], l[j])
  {
    assert Ahead(k.tcb, arrived, l[i], l[j]);
    assert HasOwnItem(k.tcb, l[i]) && HasOwnItem(k.tcb, l[j]);
  }

  /** xTaskRemoveFromEventList takes the first waiter. */
  lemma {:induction false} HeadIsWoken(k: Kernel, e: EventId)
    requires Inv(k) && k.EventList(e) != []
    ensures var l, r := k.EventList(e), Tasks.RemoveFromEvent(k, e);
            && r.EventList(e) == l[1..]
            && (if k.suspensions == 0 then r.IsReady(l[0]) else r.pending == k.pending + [l[0]])
  {
    var l := k.EventList(e);
    var t := l[0];
    assert t in k.events[e];
    Places(k, t);
    WithoutOne(l, 0);
    assert Drop(l, 0) == l[1..];
    WithoutAbsent(k.pending, t);
    if k.suspensions == 0 {
      UneventKeeps(k, t);
      MoveToReady(Unevent(k, t), t);
    }
  }

  /** In every run, the task xTaskRemoveFromEventList wakes has the highest priority of the waiters and, among
      those, has waited longest. */
  lemma {:induction false} WakesMostUrgent(idle: TaskId, calls: seq<Call>, e: EventId)
    requires Legal(Started(idle), calls) && AllOrderly(Started(idle), calls, e)
    requires After(Started(idle), calls).EventList(e) != []
    ensures var k, a := After(Started(idle), calls), Arrivals(Started(idle), calls, e, map[], 0);
            var l, r := k.EventList(e), Tasks.RemoveFromEvent(k, e);
            && (forall t :: t in l ==> t in a)
            && HeadIsNext(k, l, a)
            && r.EventList(e) == l[1..]
            && (if k.suspensions == 0 then r.IsReady(l[0]) else r.pending == k.pending + [l[0]])
  {
    StartedKeeps(idle);
    RunKeeps(Started(idle), calls);
    RunQueues(Started(idle), calls, e, map[], 0);
    var k, a := After(Started(idle), calls), Arrivals(Started(idle), calls, e, map[], 0);
    forall j | 0 < j < |k.EventList(e)| ensures Before(k, a, k.EventList(e)[0], k.EventList(e)[j]) {
      QueuedBefore(k, k.EventList(e), a, |calls|, 0, j);
    }
    HeadIsWoken(k, e);
  }

  // ---------- a priority that changes while the task waits ----------

  /** vTaskPrioritySet gives the event item of the task its new value where it is linked in, without re-sorting
      the list: the next task woken is the one that was to be woken before. */
  lemma {:induction false} PriorityChangeDoesNotResort(k: Kernel, e: EventId, t: TaskId, p: Priority)
    requires Inv(k) && t in k.tcb && k.EventList(e) != []
    ensures var l, r := k.EventList(e), Tasks.PrioritySet(k, t, p);
            && r.EventList(e) == l
            && (k.tcb[t].eventValue < VALUE_IN_USE && k.tcb[t].basePriority != p ==>
                  r.tcb[t].eventValue == PriorityValue(p))
            && Tasks.RemoveFromEvent(r, e).EventList(e) == l[1..]
            && (if k.suspensions == 0 then Tasks.RemoveFromEvent(r, e).IsReady(l[0])
                else Tasks.RemoveFromEvent(r, e).pending == k.pending + [l[0]])
  {
    var r := Tasks.PrioritySet(k, t, p);
    StepKeeps(k, PrioritySet(t, p));
    PriorityChangeFrame(k, t, p);
    HeadIsWoken(r, e);
  }

  lemma PriorityChangeFrame(k: Kernel, t: TaskId, p: Priority)
    requires t in k.tcb
    ensures var r := Tasks.PrioritySet(k, t, p);
            && r.events == k.events && r.pending == k.pending && r.suspensions == k.suspensions
            && (k.tcb[t].basePriority != p ==> r.tcb == k.tcb[t := WithPriority(k.tcb[t], p)])
            && (k.tcb[t].basePriority == p ==> r == k)
  {
  }

  /** Whether the waiter at `i` may come to run at priority `q` with the first waiter still the next to wake: the
      first one must stay before the second, and another one must not come before the first. */
  predicate MayRunAt(k: Kernel, l: seq<TaskId>, arrived: map<TaskId, nat>, i: nat, q: Priority)
    requires i < |l|
  {
    if i > 0 then
      q < k.PriorityOf(l[0]) || (q == k.PriorityOf(l[0]) && ArrivalOf(arrived, l[0]) < ArrivalOf(arrived, l[i]))
    else
      || |l| == 1
      || q > k.PriorityOf(l[1])
      || (q == k.PriorityOf(l[1]) && ArrivalOf(arrived, l[0]) < ArrivalOf(arrived, l[1]))
  }

  /** For any change of the priority of one waiter, from inheritance as well as from vTaskPrioritySet. */
  lemma {:induction false} HeadStaysNextExactlyIf(k: Kernel, r: Kernel, l: seq<TaskId>, arrived: map<TaskId, nat>,
                                                 now: nat, i: nat)
    requires Queued(k.tcb, l, arrived, now) && i < |l|
    requires forall a, b :: 0 <= a < b < |l| ==> l[a] != l[b]
    requires forall t :: t in l && t != l[i] ==> r.PriorityOf(t) == k.PriorityOf(t)
    ensures HeadIsNext(r, l, arrived) <==> MayRunAt(k, l, arrived, i, r.PriorityOf(l[i]))
  {
    forall j | 0 < j < |l| ensures Before(k, arrived, l[0], l[j]) && (1 < j ==> Before(k, arrived, l[1], l[j])) {
      QueuedBefore(k, l, arrived, now, 0, j);
      if 1 < j {
        QueuedBefore(k, l, arrived, now, 1, j);
      }
    }
    if HeadIsNext(r, l, arrived) && |l| > 1 {
      assert Before(r, arrived, l[0], l[if i > 0 then i else 1]);
    }
  }

  /** After any run, vTaskPrioritySet on the waiter at `i` leaves the first waiter the one to wake exactly under
      that condition. */
  lemma {:induction false} PriorityChangeKeepsHeadExactlyIf(idle: TaskId, calls: seq<Call>, e: EventId, i: nat,
                                                           p: Priority)
    requires Legal(Started(idle), calls) && AllOrderly(Started(idle), calls, e)
    requires i < |After(Started(idle), calls).EventList(e)|
    ensures var k, a := After(Started(idle), calls), Arrivals(Started(idle), calls, e, map[], 0);
            var l := k.EventList(e);
            && l[i] in k.tcb
            && var r := Tasks.PrioritySet(k, l[i], p);
               (HeadIsNext(r, l, a) <==> MayRunAt(k, l, a, i, r.PriorityOf(l[i])))
  {
    StartedKeeps(idle);
    RunKeeps(Started(idle), calls);
    RunQueues(Started(idle), calls, e, map[], 0);
    var k, a := After(Started(idle), calls), Arrivals(Started(idle), calls, e, map[], 0);
    var l := k.EventList(e);
    WaitersAreNotReady(k, e, l[i]);
    PriorityChangeFrame(k, l[i], p);
    DistinctAt(l);
    HeadStaysNextExactlyIf(k, Tasks.PrioritySet(k, l[i], p), l, a, |calls|, i);
  }

  lemma DistinctAt(l: seq<TaskId>)
    requires Distinct(l)
    ensures forall a, b :: 0 <= a < b < |l| ==> l[a] != l[b]
  {
  }
}
