/** Event groups: tasks that wait for bits, and the one operation that walks their list while it takes
    tasks off it (event_groups.c). */
module EventGroups {
  import opened ListModel

  type TaskId = nat

  /** A word of 32 bits, as the set of the positions of its one bits: the operators `|`, `&` and `& ~` of the
      C code are union, intersection and difference. */
  type Bit = b: nat | b < 32
  type Bits = set<Bit>

  const CLEAR_ON_EXIT: Bits := {24}   // eventCLEAR_EVENTS_ON_EXIT_BIT, 0x01000000
  const UNBLOCKED: Bits := {25}       // eventUNBLOCKED_DUE_TO_BIT_SET, 0x02000000
  const WAIT_FOR_ALL: Bits := {26}    // eventWAIT_FOR_ALL_BITS, 0x04000000
  const CONTROL: Bits := {24, 25, 26, 27, 28, 29, 30, 31} // eventEVENT_BITS_CONTROL_BYTES, 0xff000000
  const IN_USE: Bits := {31}          // taskEVENT_LIST_ITEM_VALUE_IN_USE, 0x80000000

  /** The arguments that a blocked call still has on its stack. */
  datatype Call = Call(wanted: Bits, clear: bool, all: bool)

  datatype Group = Group(
    bits: Bits,                   // uxEventBits
    waiting: seq<TaskId>,         // xTasksWaitingForBits
    items: map<TaskId, Bits>,     // the event item value of each task in `calls`
    calls: map<TaskId, Call>)     // the tasks that have blocked on the group and not returned yet

  datatype Outcome = Blocks | Returns(value: Bits)

  // ---------- wait conditions ----------

  /** prvTestWaitCondition. */
  predicate Condition(bits: Bits, wanted: Bits, all: bool) {
    if all then bits * wanted == wanted else bits * wanted != {}
  }

  /** The event item value of a task that blocks on the group, as vTaskPlaceOnUnorderedEventList stores it. */
  function ItemOf(c: Call): Bits {
    c.wanted + (if c.clear then CLEAR_ON_EXIT else {}) + (if c.all then WAIT_FOR_ALL else {}) + IN_USE
  }

  /** What xEventGroupSetBits reads out of an item value. */
  function Wanted(item: Bits): Bits {
    item - CONTROL
  }

  predicate Satisfied(item: Bits, bits: Bits) {
    Condition(bits, Wanted(item), item * WAIT_FOR_ALL != {})
  }

  function ClearMask(item: Bits): Bits {
    if item * CLEAR_ON_EXIT != {} then Wanted(item) else {}
  }

  function Delivery(bits: Bits): Bits {
    bits + UNBLOCKED + IN_USE
  }

  lemma ItemParts(c: Call)
    requires c.wanted * CONTROL == {}
    ensures Wanted(ItemOf(c)) == c.wanted
    ensures ItemOf(c) * WAIT_FOR_ALL != {} <==> c.all
    ensures ItemOf(c) * CLEAR_ON_EXIT != {} <==> c.clear
    ensures ItemOf(c) * UNBLOCKED == {}
  {
  }

  lemma DeliveryParts(bits: Bits)
    requires bits * CONTROL == {}
    ensures Delivery(bits) * UNBLOCKED != {} && Wanted(Delivery(bits)) == bits
  {
  }

  /** Clearing bits satisfies no condition. */
  lemma ClearingSatisfiesNone(bits: Bits, left: Bits, wanted: Bits, all: bool)
    requires left <= bits && !Condition(bits, wanted, all)
    ensures !Condition(left, wanted, all)
  {
  }

  // ---------- xEventGroupSetBits ----------

  function ItemIn(items: map<TaskId, Bits>, t: TaskId): Bits {
    if t in items then items[t] else {}
  }

  /** The waiters whose condition `bits` satisfies, and the others, in list order. */
  function Woken(items: map<TaskId, Bits>, waiting: seq<TaskId>, bits: Bits): seq<TaskId> {
    if waiting == [] then []
    else
      var rest := Woken(items, waiting[1..], bits);
      if Satisfied(ItemIn(items, waiting[0]), bits) then [waiting[0]] + rest else rest
  }

  function Left(items: map<TaskId, Bits>, waiting: seq<TaskId>, bits: Bits): seq<TaskId> {
    if waiting == [] then []
    else
      var rest := Left(items, waiting[1..], bits);
      if Satisfied(ItemIn(items, waiting[0]), bits) then rest else [waiting[0]] + rest
  }

  lemma {:induction false} WokenAndLeft(items: map<TaskId, Bits>, waiting: seq<TaskId>, bits: Bits)
    ensures forall t :: t in Woken(items, waiting, bits) <==> t in waiting && Satisfied(ItemIn(items, t), bits)
    ensures forall t :: t in Left(items, waiting, bits) <==> t in waiting && !Satisfied(ItemIn(items, t), bits)
    ensures Distinct(waiting) ==> Distinct(Left(items, waiting, bits))
  {
    if waiting != [] {
      WokenAndLeft(items, waiting[1..], bits);
      if Distinct(waiting) {
        assert waiting[0] !in waiting[1..];
      }
    }
  }

  /** The union of the clear masks of some tasks. */
  function ClearUnion(items: map<TaskId, Bits>, tasks: seq<TaskId>): Bits {
    if tasks == [] then {} else ClearMask(ItemIn(items, tasks[0])) + ClearUnion(items, tasks[1..])
  }

  function Delivered(items: map<TaskId, Bits>, tasks: seq<TaskId>, value: Bits): (r: map<TaskId, Bits>)
    ensures forall t :: t in r <==> t in items || t in tasks
    ensures forall t :: t in r ==> r[t] == if t in tasks then value else items[t]
  {
    map t | t in items.Keys + (set u | u in tasks) :: if t in tasks then value else items[t]
  }

  function SetBits(g: Group, more: Bits): Group {
    var bits := g.bits + more;
    var woken := Woken(g.items, g.waiting, bits);
    g.(bits := bits - ClearUnion(g.items, woken),
       waiting := Left(g.items, g.waiting, bits),
       items := Delivered(g.items, woken, Delivery(bits)))
  }

  /** What a set operation clears, whatever the order of the list: exactly the bits that some woken task
      with clear-on-exit waited for. */
  lemma {:induction false} ClearUnionIsUnion(items: map<TaskId, Bits>, tasks: seq<TaskId>)
    ensures forall b :: b in ClearUnion(items, tasks) <==> exists t :: t in tasks && b in ClearMask(ItemIn(items, t))
  {
    if tasks != [] {
      ClearUnionIsUnion(items, tasks[1..]);
    }
  }

  /** The result does not depend on the order in which the tasks wait. */
  lemma {:induction false} SetBitsIgnoresOrder(g: Group, h: Group, more: Bits)
    requires h == g.(waiting := h.waiting) && forall t :: t in g.waiting <==> t in h.waiting
    ensures var a, b := SetBits(g, more), SetBits(h, more);
            && a.bits == b.bits && a.items == b.items && a.calls == b.calls
            && forall t :: t in a.waiting <==> t in b.waiting
  {
    var bits := g.bits + more;
    var v, w := Woken(g.items, g.waiting, bits), Woken(g.items, h.waiting, bits);
    WokenAndLeft(g.items, g.waiting, bits);
    WokenAndLeft(g.items, h.waiting, bits);
    SameMembers(g.items, v, w, Delivery(bits));
  }

  lemma {:induction false} SameMembers(items: map<TaskId, Bits>, v: seq<TaskId>, w: seq<TaskId>, value: Bits)
    requires forall t :: t in v <==> t in w
    ensures ClearUnion(items, v) == ClearUnion(items, w)
    ensures Delivered(items, v, value) == Delivered(items, w, value)
  {
    ClearUnionIsUnion(items, v);
    ClearUnionIsUnion(items, w);
  }

  // ---------- the other operations ----------

  /** xEventGroupWaitBits, up to where it blocks. */
  function WaitBits(g: Group, t: TaskId, c: Call, mayBlock: bool): (Group, Outcome) {
    if Condition(g.bits, c.wanted, c.all) then
      (g.(bits := if c.clear then g.bits - c.wanted else g.bits), Returns(g.bits))
    else if !mayBlock then (g, Returns(g.bits))
    else (Blocked(g, t, c), Blocks)
  }

  function Blocked(g: Group, t: TaskId, c: Call): Group {
    g.(waiting := g.waiting + [t], items := g.items[t := ItemOf(c)], calls := g.calls[t := c])
  }

  /** xEventGroupSync, up to where it blocks. */
  function Sync(g: Group, t: TaskId, more: Bits, wanted: Bits, mayBlock: bool): (Group, Outcome) {
    var after := SetBits(g, more);
    if (g.bits + more) * wanted == wanted then (after.(bits := after.bits - wanted), Returns(g.bits + more))
    else if mayBlock then (Blocked(after, t, Call(wanted, true, true)), Blocks)
    else (after, Returns(after.bits))
  }

  /** xEventGroupClearBits. */
  function ClearBits(g: Group, mask: Bits): (Group, Outcome) {
    (g.(bits := g.bits - mask), Returns(g.bits))
  }

  /** xTaskIncrementTick ends the wait of a task whose block time has run out. */
  function TimeOut(g: Group, t: TaskId): Group {
    g.(waiting := Without(g.waiting, t))
  }

  /** How xEventGroupWaitBits and xEventGroupSync end once the task has been unblocked. */
  function Finish(g: Group, t: TaskId): (Group, Outcome)
    requires t in g.calls && t in g.items
  {
    var c, item := g.calls[t], g.items[t];
    var h := g.(items := g.items - {t}, calls := g.calls - {t});
    if item * UNBLOCKED != {} then (h, Returns(Wanted(item)))
    else if Condition(g.bits, c.wanted, c.all) && c.clear then
      (h.(bits := g.bits - c.wanted), Returns(Wanted(g.bits)))
    else (h, Returns(Wanted(g.bits)))
  }

  // ---------- runs ----------

  datatype Step =
    | SetStep(mask: Bits)
    | ClearStep(mask: Bits)
    | WaitStep(task: TaskId, call: Call, mayBlock: bool)
    | SyncStep(task: TaskId, mask: Bits, wanted: Bits, mayBlock: bool)
    | TimeOutStep(task: TaskId)
    | FinishStep(task: TaskId)

  /** The assertions of the source, and that a task runs only while it is not waiting. */
  predicate Enabled(g: Group, s: Step) {
    match s
    case SetStep(m) => m * CONTROL == {}
    case ClearStep(m) => m * CONTROL == {}
    case WaitStep(t, c, _) => t !in g.calls && c.wanted * CONTROL == {} && c.wanted != {}
    case SyncStep(t, m, w, _) => t !in g.calls && m * CONTROL == {} && w * CONTROL == {} && w != {}
    case TimeOutStep(_) => true
    case FinishStep(t) => t in g.calls && t in g.items && t !in g.waiting
  }

  function Apply(g: Group, s: Step): (Group, Outcome)
    requires Enabled(g, s)
  {
    match s
    case SetStep(m) => (SetBits(g, m), Blocks)
    case ClearStep(m) => ClearBits(g, m)
    case WaitStep(t, c, mayBlock) => WaitBits(g, t, c, mayBlock)
    case SyncStep(t, m, w, mayBlock) => Sync(g, t, m, w, mayBlock)
    case TimeOutStep(t) => (TimeOut(g, t), Blocks)
    case FinishStep(t) => Finish(g, t)
  }

  // ---------- the invariant ----------

  /** A task in a blocked call either still has the item it blocked with, or one that a set operation has
      delivered, with bits that satisfy the call. */
  predicate ItemFits(c: Call, item: Bits) {
    item == ItemOf(c) || (item * UNBLOCKED != {} && Condition(Wanted(item), c.wanted, c.all))
  }

  ghost predicate Inv(g: Group) {
    && g.bits * CONTROL == {}
    && Distinct(g.waiting)
    && g.items.Keys == g.calls.Keys
    && (forall t :: t in g.waiting ==> t in g.calls && g.items[t] == ItemOf(g.calls[t]))
    && (forall t :: t in g.calls ==> g.calls[t].wanted * CONTROL == {} && ItemFits(g.calls[t], g.items[t]))
    && (forall t :: t in g.waiting ==> !Condition(g.bits, g.calls[t].wanted, g.calls[t].all))
  }

  /** xEventGroupSetBits wakes exactly the waiters that the old bits with the new ones satisfy, gives each of
      them those bits, clears exactly what they asked to be cleared, and leaves the others as they were. */
  lemma {:induction false} SetBitsIsExact(g: Group, more: Bits)
    requires Inv(g) && more * CONTROL == {}
    ensures var h, bits := SetBits(g, more), g.bits + more;
            && (forall t :: t in g.waiting ==>
                  if Condition(bits, g.calls[t].wanted, g.calls[t].all)
                  then t !in h.waiting && t in h.items && h.items[t] == Delivery(bits)
                  else t in h.waiting && t in h.items && h.items[t] == g.items[t])
            && (forall t :: t in h.waiting ==> t in g.waiting)
            && (forall t :: t !in g.waiting && t in g.items ==> t in h.items && h.items[t] == g.items[t])
            && (forall b :: b in h.bits <==>
                  && b in bits
                  && !exists t :: t in g.waiting && t !in h.waiting && g.calls[t].clear && b in g.calls[t].wanted)
  {
    var h, bits := SetBits(g, more), g.bits + more;
    var woken := Woken(g.items, g.waiting, bits);
    forall t | t in g.waiting
      ensures Satisfied(ItemIn(g.items, t), bits) == Condition(bits, g.calls[t].wanted, g.calls[t].all)
      ensures ClearMask(ItemIn(g.items, t)) == if g.calls[t].clear then g.calls[t].wanted else {}
    {
      ItemParts(g.calls[t]);
    }
    WokenAndLeft(g.items, g.waiting, bits);
    ClearUnionIsUnion(g.items, woken);
  }

  // ---------- every step keeps it ----------

  lemma {:induction false} SetBitsKeepsItems(g: Group, more: Bits)
    requires Inv(g) && more * CONTROL == {}
    ensures var h := SetBits(g, more);
            && h.items.Keys == g.calls.Keys
            && (forall t :: t in h.waiting ==> t in g.waiting && h.items[t] == ItemOf(g.calls[t]))
            && (forall t :: t in g.calls ==> ItemFits(g.calls[t], h.items[t]))
  {
    var h, bits := SetBits(g, more), g.bits + more;
    SetBitsIsExact(g, more);
    DeliveryParts(bits);
    WokenAndLeft(g.items, g.waiting, bits);
  }

  lemma {:induction false} SetBitsKeepsWaiting(g: Group, more: Bits)
    requires Inv(g) && more * CONTROL == {}
    ensures var h := SetBits(g, more);
            && h.bits <= g.bits + more && h.bits * CONTROL == {}
            && Distinct(h.waiting)
            && (forall t :: t in h.waiting ==> t in g.calls && !Condition(h.bits, g.calls[t].wanted, g.calls[t].all))
  {
    var h, bits := SetBits(g, more), g.bits + more;
    WokenAndLeft(g.items, g.waiting, bits);
    forall t | t in h.waiting
      ensures t in g.calls && !Condition(h.bits, g.calls[t].wanted, g.calls[t].all)
    {
      ItemParts(g.calls[t]);
      ClearingSatisfiesNone(bits, h.bits, g.calls[t].wanted, g.calls[t].all);
    }
  }

  lemma {:induction false} SetBitsKeeps(g: Group, more: Bits)
    requires Inv(g) && more * CONTROL == {}
    ensures Inv(SetBits(g, more)) && SetBits(g, more).bits <= g.bits + more
  {
    SetBitsKeepsItems(g, more);
    SetBitsKeepsWaiting(g, more);
  }

  lemma {:induction false} ClearKeeps(g: Group, mask: Bits)
    requires Inv(g)
    ensures Inv(g.(bits := g.bits - mask))
  {
    forall t | t in g.waiting
      ensures !Condition(g.bits - mask, g.calls[t].wanted, g.calls[t].all)
    {
      ClearingSatisfiesNone(g.bits, g.bits - mask, g.calls[t].wanted, g.calls[t].all);
    }
  }

  lemma {:induction false} BlockedKeeps(g: Group, t: TaskId, c: Call)
    requires Inv(g) && t !in g.calls && c.wanted * CONTROL == {} && !Condition(g.bits, c.wanted, c.all)
    ensures Inv(Blocked(g, t, c))
  {
    assert t !in g.waiting;
  }

  lemma {:induction false} SyncKeeps(g: Group, t: TaskId, more: Bits, wanted: Bits, mayBlock: bool)
    requires Inv(g) && Enabled(g, SyncStep(t, more, wanted, mayBlock))
    ensures Inv(Sync(g, t, more, wanted, mayBlock).0)
  {
    var after := SetBits(g, more);
    SetBitsKeeps(g, more);
    if (g.bits + more) * wanted == wanted {
      ClearKeeps(after, wanted);
    } else if mayBlock {
      assert !Condition(after.bits, wanted, true);
      BlockedKeeps(after, t, Call(wanted, true, true));
    }
  }

  lemma {:induction false} TimeOutKeeps(g: Group, t: TaskId)
    requires Inv(g)
    ensures Inv(TimeOut(g, t))
  {
    WithoutDistinct(g.waiting, t);
  }

  lemma {:induction false} WithoutDistinct(s: seq<TaskId>, x: TaskId)
    requires Distinct(s)
    ensures Distinct(Without(s, x))
  {
    if i :| 0 <= i < |s| && s[i] == x {
      WithoutOne(s, i);
      DropDistinct(s, i);
    } else {
      WithoutAbsent(s, x);
    }
  }

  lemma {:induction false} FinishKeeps(g: Group, t: TaskId)
    requires Inv(g) && Enabled(g, FinishStep(t))
    ensures Inv(Finish(g, t).0)
  {
    var h := g.(items := g.items - {t}, calls := g.calls - {t});
    assert Inv(h);
    ClearKeeps(h, g.calls[t].wanted);
  }

  lemma {:induction false} StepKeeps(g: Group, s: Step)
    requires Inv(g) && Enabled(g, s)
    ensures Inv(Apply(g, s).0)
  {
    match s
    case SetStep(m) => SetBitsKeeps(g, m);
    case ClearStep(m) => ClearKeeps(g, m);
    case WaitStep(t, c, mayBlock) =>
      if Condition(g.bits, c.wanted, c.all) {
        ClearKeeps(g, c.wanted);
      } else if mayBlock {
        BlockedKeeps(g, t, c);
      }
    case SyncStep(t, m, w, mayBlock) => SyncKeeps(g, t, m, w, mayBlock);
    case TimeOutStep(t) => TimeOutKeeps(g, t);
    case FinishStep(t) => FinishKeeps(g, t);
  }

  predicate Possible(g: Group, run: seq<Step>)
    decreases |run|
  {
    run == [] || (Enabled(g, run[0]) && Possible(Apply(g, run[0]).0, run[1..]))
  }

  function After(g: Group, run: seq<Step>): Group
    requires Possible(g, run)
    decreases |run|
  {
    if run == [] then g else After(Apply(g, run[0]).0, run[1..])
  }

  const CREATED := Group({}, [], map[], map[])

  lemma {:induction false} RunKeeps(g: Group, run: seq<Step>)
    requires Inv(g) && Possible(g, run)
    ensures Inv(After(g, run))
    decreases |run|
  {
    if run != [] {
      StepKeeps(g, run[0]);
      RunKeeps(Apply(g, run[0]).0, run[1..]);
    }
  }

  /** In every run: no task waits whose condition the event bits satisfy, and no control bit is an event bit. */
  lemma {:induction false} NoWaiterIsSatisfied(run: seq<Step>)
    requires Possible(CREATED, run)
    ensures var g := After(CREATED, run);
            && g.bits * CONTROL == {}
            && forall t :: t in g.waiting ==>
                 t in g.calls && !Condition(g.bits, g.calls[t].wanted, g.calls[t].all)
  {
    RunKeeps(CREATED, run);
  }

  /** In every run: a blocked call returns bits without control bits, and unless it timed out they satisfy
      what it waited for. */
  lemma {:induction false} ReturnedBitsSatisfy(run: seq<Step>, t: TaskId)
    requires Possible(CREATED, run) && Enabled(After(CREATED, run), FinishStep(t))
    ensures var g := After(CREATED, run);
            var c, value := g.calls[t], Finish(g, t).1.value;
            && value * CONTROL == {}
            && (g.items[t] == ItemOf(c) || Condition(value, c.wanted, c.all))
  {
    RunKeeps(CREATED, run);
    ItemParts(After(CREATED, run).calls[t]);
  }

  // ---------- the event group object ----------

  /** EventGroup_t, with the item values and the stacks of the tasks that are blocked on it. */
  class EventGroup {
    var bits: Bits
    var waiting: seq<TaskId>
    var items: map<TaskId, Bits>
    ghost var calls: map<TaskId, Call>

    ghost function Model(): Group
      reads this
    {
      Group(bits, waiting, items, calls)
    }

    /** xEventGroupCreate. */
    constructor ()
      ensures Model() == CREATED
    {
      bits, waiting, items, calls := {}, [], map[], map[];
    }

    /** xEventGroupSetBits: walks the list, fetching the next entry before it takes the current one off; the value
        returned no longer has the bits that were cleared for the tasks it woke. */
    method SetEventBits(more: Bits) returns (after: Bits)
      requires Distinct(waiting)
      modifies `bits, `waiting, `items
      ensures Model() == SetBits(old(Model()), more)
      ensures after == bits
    {
      var toClear: Bits := {};
      bits := bits + more;
      var i := 0;
      ghost var all, before, n := waiting, items, 0;
      while i < |waiting|
        invariant bits == old(bits) + more && Walking(before, all, n, bits, i, waiting, items, toClear)
        decreases |all| - n
      {
        var t := waiting[i];
        var item := ItemIn(items, t);
        WalkOn(before, all, n, bits, i, waiting, items, toClear);
        if Satisfied(item, bits) {
          toClear := toClear + ClearMask(item);
          items := items[t := Delivery(bits)];
          waiting := Drop(waiting, i);
        } else {
          i := i + 1;
        }
        n := n + 1;
      }
      WalkEnds(before, all, n, bits, i, waiting, items, toClear);
      bits := bits - toClear;
      after := bits;
    }

    /** xEventGroupClearBits. */
    method ClearEventBits(mask: Bits) returns (before: Bits)
      modifies `bits
      ensures (Model(), Returns(before)) == ClearBits(old(Model()), mask)
    {
      before := bits;
      bits := bits - mask;
    }

    /** vTaskPlaceOnUnorderedEventList. */
    method Block(t: TaskId, c: Call)
      modifies `waiting, `items, `calls
      ensures Model() == Blocked(old(Model()), t, c)
    {
      items := items[t := ItemOf(c)];
      waiting := waiting + [t];
      calls := calls[t := c];
    }

    /** xEventGroupWaitBits, up to where it blocks. */
    method WaitForBits(t: TaskId, c: Call, mayBlock: bool) returns (o: Outcome)
      modifies this
      ensures (Model(), o) == WaitBits(old(Model()), t, c, mayBlock)
    {
      o := Returns(bits);
      if Condition(bits, c.wanted, c.all) {
        if c.clear {
          bits := bits - c.wanted;
        }
      } else if mayBlock {
        Block(t, c);
        o := Blocks;
      }
    }

    /** xEventGroupSync, up to where it blocks. */
    method Rendezvous(t: TaskId, more: Bits, wanted: Bits, mayBlock: bool) returns (o: Outcome)
      requires Distinct(waiting)
      modifies this
      ensures (Model(), o) == Sync(old(Model()), t, more, wanted, mayBlock)
    {
      var originalBits := bits;
      var after := SetEventBits(more);
      if (originalBits + more) * wanted == wanted {
        bits := bits - wanted;
        o := Returns(originalBits + more);
      } else if mayBlock {
        Block(t, Call(wanted, true, true));
        o := Blocks;
      } else {
        o := Returns(bits);
      }
    }

    /** How both functions end once the task has been unblocked; `c` is what they were called with. */
    method FinishWait(t: TaskId, c: Call) returns (value: Bits)
      requires t in items && t in calls && calls[t] == c
      modifies this
      ensures (Model(), Returns(value)) == Finish(old(Model()), t)
    {
      value := items[t];
      items, calls := items - {t}, calls - {t};
      if value * UNBLOCKED == {} {
        value := bits;
        if Condition(value, c.wanted, c.all) && c.clear {
          bits := bits - c.wanted;
        }
      }
      value := value - CONTROL;
    }
  }

  /** The state of the walk after n of the tasks that waited at its start. */
  ghost predicate Walking(before: map<TaskId, Bits>, all: seq<TaskId>, n: nat, bits: Bits,
                          i: nat, waiting: seq<TaskId>, items: map<TaskId, Bits>, toClear: Bits)
  {
    && Distinct(all) && n <= |all|
    && i <= |waiting| && waiting[i..] == all[n..] && waiting[..i] == Left(before, all[..n], bits)
    && items == Delivered(before, Woken(before, all[..n], bits), Delivery(bits))
    && toClear == ClearUnion(before, Woken(before, all[..n], bits))
  }

  lemma WalkEnds(before: map<TaskId, Bits>, all: seq<TaskId>, n: nat, bits: Bits,
                 i: nat, waiting: seq<TaskId>, items: map<TaskId, Bits>, toClear: Bits)
    requires Walking(before, all, n, bits, i, waiting, items, toClear) && i >= |waiting|
    ensures waiting == Left(before, all, bits) && toClear == ClearUnion(before, Woken(before, all, bits))
    ensures items == Delivered(before, Woken(before, all, bits), Delivery(bits))
  {
    assert |waiting[i..]| == 0 && all[..n] == all && waiting[..i] == waiting;
  }

  lemma {:induction false} WalkOn(before: map<TaskId, Bits>, all: seq<TaskId>, n: nat, bits: Bits,
                                  i: nat, waiting: seq<TaskId>, items: map<TaskId, Bits>, toClear: Bits)
    requires Walking(before, all, n, bits, i, waiting, items, toClear) && i < |waiting|
    ensures n < |all|
    ensures var t := waiting[i];
            var item := ItemIn(items, t);
            if Satisfied(item, bits)
            then Walking(before, all, n + 1, bits, i, Drop(waiting, i), items[t := Delivery(bits)],
                         toClear + ClearMask(item))
            else Walking(before, all, n + 1, bits, i + 1, waiting, items, toClear)
  {
    var t := waiting[i];
    assert t == waiting[i..][0] && t == all[n..][0];
    NotMetBefore(before, all, n, bits);
    assert ItemIn(items, t) == ItemIn(before, t);
    assert waiting[i + 1..] == waiting[i..][1..];
    if Satisfied(ItemIn(before, t), bits) {
      WalkWakes(before, all, n, bits);
    } else {
      WalkPasses(before, all, n, bits);
      assert waiting[..i + 1] == waiting[..i] + [t];
    }
  }

  lemma {:induction false} WokenOfConcat(items: map<TaskId, Bits>, a: seq<TaskId>, b: seq<TaskId>, bits: Bits)
    ensures Woken(items, a + b, bits) == Woken(items, a, bits) + Woken(items, b, bits)
  {
    if a == [] {
      assert a + b == b;
    } else {
      assert (a + b)[0] == a[0] && (a + b)[1..] == a[1..] + b;
      WokenOfConcat(items, a[1..], b, bits);
    }
  }

  lemma {:induction false} LeftOfConcat(items: map<TaskId, Bits>, a: seq<TaskId>, b: seq<TaskId>, bits: Bits)
    ensures Left(items, a + b, bits) == Left(items, a, bits) + Left(items, b, bits)
  {
    if a == [] {
      assert a + b == b;
    } else {
      assert (a + b)[0] == a[0] && (a + b)[1..] == a[1..] + b;
      LeftOfConcat(items, a[1..], b, bits);
    }
  }

  lemma {:induction false} ClearUnionOfConcat(items: map<TaskId, Bits>, a: seq<TaskId>, b: seq<TaskId>)
    ensures ClearUnion(items, a + b) == ClearUnion(items, a) + ClearUnion(items, b)
  {
    if a == [] {
      assert a + b == b;
    } else {
      assert (a + b)[0] == a[0] && (a + b)[1..] == a[1..] + b;
      ClearUnionOfConcat(items, a[1..], b);
    }
  }

  lemma {:induction false} NotMetBefore(items: map<TaskId, Bits>, all: seq<TaskId>, n: nat, bits: Bits)
    requires Distinct(all) && n < |all|
    ensures all[n] !in Woken(items, all[..n], bits)
    ensures all[..n + 1] == all[..n] + [all[n]] && all[n + 1..] == all[n..][1..]
  {
    WokenAndLeft(items, all[..n], bits);
  }

  /** One round of the walk. */
  lemma {:induction false} WalkWakes(items: map<TaskId, Bits>, all: seq<TaskId>, n: nat, bits: Bits)
    requires n < |all| && Satisfied(ItemIn(items, all[n]), bits)
    ensures Left(items, all[..n + 1], bits) == Left(items, all[..n], bits)
    ensures ClearUnion(items, Woken(items, all[..n + 1], bits))
            == ClearUnion(items, Woken(items, all[..n], bits)) + ClearMask(ItemIn(items, all[n]))
    ensures Delivered(items, Woken(items, all[..n + 1], bits), Delivery(bits))
            == Delivered(items, Woken(items, all[..n], bits), Delivery(bits))[all[n] := Delivery(bits)]
  {
    var t := all[n];
    assert all[..n + 1] == all[..n] + [t];
    WokenOfConcat(items, all[..n], [t], bits);
    LeftOfConcat(items, all[..n], [t], bits);
    assert Woken(items, [t], bits) == [t] && Left(items, [t], bits) == [];
    OneMore(items, Woken(items, all[..n], bits), t, Delivery(bits));
  }

  lemma {:induction false} OneMore(items: map<TaskId, Bits>, woken: seq<TaskId>, t: TaskId, value: Bits)
    ensures ClearUnion(items, woken + [t]) == ClearUnion(items, woken) + ClearMask(ItemIn(items, t))
    ensures Delivered(items, woken + [t], value) == Delivered(items, woken, value)[t := value]
  {
    ClearUnionOfConcat(items, woken, [t]);
    assert ClearUnion(items, [t]) == ClearMask(ItemIn(items, t));
  }

  lemma {:induction false} WalkPasses(items: map<TaskId, Bits>, all: seq<TaskId>, n: nat, bits: Bits)
    requires n < |all| && !Satisfied(ItemIn(items, all[n]), bits)
    ensures Woken(items, all[..n + 1], bits) == Woken(items, all[..n], bits)
    ensures Left(items, all[..n + 1], bits) == Left(items, all[..n], bits) + [all[n]]
  {
    var t := all[n];
    assert all[..n + 1] == all[..n] + [t];
    WokenOfConcat(items, all[..n], [t], bits);
    LeftOfConcat(items, all[..n], [t], bits);
    assert Woken(items, [t], bits) == [] && Left(items, [t], bits) == [t];
  }
}
