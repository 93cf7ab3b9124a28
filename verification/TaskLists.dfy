/** The state lists of tasks.c as the linked lists of list.c: the kernel's list moves on the heap.

    `Schedulers` keeps each state list as a sequence; here the lists are `Lists.List` objects that link the
    generic list items of task control blocks, and what they show is the lists of a `Kernel`. */
module TaskLists {
  import opened Ticks
  import opened ListModel
  import opened Tasks
  import opened TaskInvariants
  import TaskRuns
  import opened Lists

  datatype Option<T> = None | Some(value: T)

  /** The parts of TCB_t that the state lists use. */
  class ControlBlock {
    const id: TaskId
    const item: ListItem     // xGenericListItem
    var priority: Priority   // uxPriority

    constructor (id: TaskId, priority: Priority)
      ensures this.id == id && this.priority == priority && fresh(item) && item.container == null && item.owner == this
    {
      this.id, this.priority := id, priority;
      var i := new ListItem(0, null);
      item := i;
      new;
      item.owner := this;
    }
  }

  // ---------- what a list shows ----------

  /** The list item `x` is that of task `t`, and has its wake value and owner. */
  ghost predicate Holds(x: ListItem, t: TaskId, tcb: map<TaskId, Tcb>, blocks: map<TaskId, ControlBlock>)
    reads x, blocks.Values
  {
    && t in tcb && t in blocks
    && blocks[t].item == x && blocks[t].id == t && x.owner == blocks[t]
    && blocks[t].priority == tcb[t].priority && x.value == tcb[t].wakeValue
  }

  ghost predicate HoldsAll(s: seq<ListItem>, ids: seq<TaskId>, tcb: map<TaskId, Tcb>, blocks: map<TaskId, ControlBlock>)
    reads s, blocks.Values
  {
    |s| == |ids| && forall i :: 0 <= i < |s| ==> Holds(s[i], ids[i], tcb, blocks)
  }

  lemma HoldsPut(s: seq<ListItem>, ids: seq<TaskId>, p: nat, x: ListItem, t: TaskId, tcb: map<TaskId, Tcb>,
                 blocks: map<TaskId, ControlBlock>)
    requires HoldsAll(s, ids, tcb, blocks) && Holds(x, t, tcb, blocks) && p <= |s|
    ensures HoldsAll(Put(s, p, x), Put(ids, p, t), tcb, blocks)
  {
    PutAt(s, p, x);
    PutAt(ids, p, t);
  }

  lemma HoldsDrop(s: seq<ListItem>, ids: seq<TaskId>, p: nat, tcb: map<TaskId, Tcb>, blocks: map<TaskId, ControlBlock>)
    requires HoldsAll(s, ids, tcb, blocks) && p < |s|
    ensures HoldsAll(Drop(s, p), Drop(ids, p), tcb, blocks)
  {
    DropAt(s, p);
    DropAt(ids, p);
  }

  ghost predicate Shown(l: List, r: Ring<TaskId>, tcb: map<TaskId, Tcb>, blocks: map<TaskId, ControlBlock>)
    reads l, l.end, l.Items, blocks.Values
  {
    l.Valid() && l.Position == r.index && HoldsAll(l.Items, r.items, tcb, blocks)
  }

  /** Different lists, with end markers of their own that belong to no task. */
  ghost predicate Apart(lists: seq<List>, blocks: map<TaskId, ControlBlock>) {
    && (forall i, j :: 0 <= i < j < |lists| ==> lists[i] != lists[j] && lists[i].end != lists[j].end)
    && (forall i, t :: 0 <= i < |lists| && t in blocks ==> blocks[t].item != lists[i].end)
  }

  // ---------- one list at a time ----------

  /** vListInsertEnd of the generic list item of `b`. */
  method LinkLast(l: List, b: ControlBlock, ghost r: Ring<TaskId>, ghost tcb: map<TaskId, Tcb>,
                  ghost blocks: map<TaskId, ControlBlock>)
    requires Shown(l, r, tcb, blocks) && b.item.container == null && b.item != l.end
    requires Holds(b.item, b.id, tcb, blocks)
    modifies l, l.end, l.Items, b.item
    ensures r.Valid() && Shown(l, r.InsertEnd(b.id), tcb, blocks)
    ensures l.Model() == old(l.Model()).InsertEnd(b.item)
  {
    ghost var s, p := l.Items, if l.Position == 0 then |l.Items| else l.Position - 1;
    l.InsertEnd(b.item);
    HoldsPut(s, r.items, p, b.item, b.id, tcb, blocks);
  }

  /** Where vListInsert puts a task into a list ordered by wake values. */
  function ByValue(r: Ring<TaskId>, t: TaskId, tcb: map<TaskId, Tcb>): Ring<TaskId>
    requires r.Valid() && t in tcb
  {
    r.InsertAt(InsertPos(WakeValues(tcb, r.items), tcb[t].wakeValue), t)
  }

  /** vListInsert of it, by its wake value. */
  method LinkByValue(l: List, b: ControlBlock, ghost r: Ring<TaskId>, ghost tcb: map<TaskId, Tcb>,
                     ghost blocks: map<TaskId, ControlBlock>)
    requires Shown(l, r, tcb, blocks) && b.item.container == null && b.item != l.end
    requires Holds(b.item, b.id, tcb, blocks)
    modifies l, l.end, l.Items, b.item
    ensures r.Valid() && Shown(l, ByValue(r, b.id, tcb), tcb, blocks)
  {
    ghost var s, p := l.Items, InsertPos(l.Values(), b.item.value);
    assert l.Values() == WakeValues(tcb, r.items);
    l.Insert(b.item);
    HoldsPut(s, r.items, p, b.item, b.id, tcb, blocks);
  }

  lemma HoldsDistinct(s: seq<ListItem>, ids: seq<TaskId>, tcb: map<TaskId, Tcb>, blocks: map<TaskId, ControlBlock>)
    requires HoldsAll(s, ids, tcb, blocks) && Distinct(s)
    ensures Distinct(ids)
  {
    forall i, j | 0 <= i < j < |ids| ensures ids[i] != ids[j] {
      assert Holds(s[i], ids[i], tcb, blocks) && Holds(s[j], ids[j], tcb, blocks);
    }
  }

  lemma UnlinkedAt(l: List, b: ControlBlock, r: Ring<TaskId>, tcb: map<TaskId, Tcb>, blocks: map<TaskId, ControlBlock>)
    returns (p: nat)
    requires Shown(l, r, tcb, blocks) && b.item in l.Items && b.item.owner == b
    ensures p < |l.Items| == |r.items| && l.Items[p] == b.item && r.items[p] == b.id && r.Valid()
    ensures Unlink(r, b.id) == Ring(Drop(r.items, p), if p < r.index then r.index - 1 else r.index)
    ensures Unlink(l.Model(), b.item) == Ring(Drop(l.Items, p), if p < r.index then r.index - 1 else r.index)
    ensures Holds(b.item, b.id, tcb, blocks)
  {
    p :| 0 <= p < |l.Items| && l.Items[p] == b.item;
    assert Holds(l.Items[p], r.items[p], tcb, blocks);
    HoldsDistinct(l.Items, r.items, tcb, blocks);
    UnlinkAt(r, p);
    UnlinkAt(l.Model(), p);
  }

  /** uxListRemove of it, from the list it is in. */
  method UnlinkFrom(ghost l: List, b: ControlBlock, ghost r: Ring<TaskId>, ghost tcb: map<TaskId, Tcb>,
                    ghost blocks: map<TaskId, ControlBlock>)
    requires Shown(l, r, tcb, blocks) && b.item.container == l && b.item in l.Items && b.item.owner == b
    modifies l, l.end, l.Items
    ensures r.Valid() && Shown(l, Unlink(r, b.id), tcb, blocks)
    ensures b.item.container == null && Holds(b.item, b.id, tcb, blocks)
    ensures l.Model() == Unlink(old(l.Model()), b.item)
  {
    ghost var s := l.Items;
    ghost var p := UnlinkedAt(l, b, r, tcb, blocks);
    var left := List.Remove(b.item);
    HoldsDrop(s, r.items, p, tcb, blocks);
  }

  /** listGET_OWNER_OF_HEAD_ENTRY and listGET_ITEM_VALUE_OF_HEAD_ENTRY. */
  method Head(l: List, ghost r: Ring<TaskId>, ghost tcb: map<TaskId, Tcb>, ghost blocks: map<TaskId, ControlBlock>)
    returns (b: ControlBlock, value: Tick)
    requires Shown(l, r, tcb, blocks) && l.Items != []
    ensures b.id == r.items[0] && b.item == l.Items[0] && b.item.owner == b && Holds(b.item, b.id, tcb, blocks)
    ensures value == WakeOf(tcb, b.id)
  {
    assert Holds(l.Items[0], r.items[0], tcb, blocks);
    var owner: object?;
    owner, value := l.HeadEntry();
    b := owner as ControlBlock;
  }

  /** listGET_OWNER_OF_NEXT_ENTRY. */
  method NextOf(l: List, ghost r: Ring<TaskId>, ghost tcb: map<TaskId, Tcb>, ghost blocks: map<TaskId, ControlBlock>)
    returns (b: ControlBlock)
    requires Shown(l, r, tcb, blocks) && l.Items != []
    modifies l
    ensures r.Valid() && r.items != [] && Shown(l, r.Next(), tcb, blocks)
    ensures b.id == r.Next().Indexed() && b in blocks.Values && l.Items == old(l.Items)
  {
    ghost var next := r.Next();
    assert Holds(l.Items[next.index - 1], r.items[next.index - 1], tcb, blocks);
    var owner: object? := l.OwnerOfNextEntry();
    b := owner as ControlBlock;
  }

  // ---------- all lists at once ----------

  /** All list items that are linked in. */
  ghost function Linked(lists: seq<List>): set<ListItem>
    reads lists
  {
    set i, x | 0 <= i < |lists| && x in lists[i].Items :: x
  }

  /** Each list shows its ring of tasks. */
  ghost predicate AllShown(lists: seq<List>, rings: seq<Ring<TaskId>>, tcb: map<TaskId, Tcb>,
                           blocks: map<TaskId, ControlBlock>)
    reads lists, set i | 0 <= i < |lists| :: lists[i].end
    reads Linked(lists), blocks.Values
  {
    && Apart(lists, blocks) && |lists| == |rings|
    && forall i :: 0 <= i < |lists| ==>
         (assert forall x <- lists[i].Items :: x in Linked(lists); Shown(lists[i], rings[i], tcb, blocks))
  }

  /** Valid lists that are apart share no memory: a list item tells which list it is in. */
  lemma Disjoint(a: List, b: List)
    requires a.Valid() && b.Valid() && a != b && a.end != b.end
    ensures a.end !in b.Items && b.end !in a.Items && forall x :: x in a.Items ==> x !in b.Items
  {
    forall x | x in a.Items ensures x.container == a {
    }
    forall x | x in b.Items ensures x.container == b {
    }
  }

  /** The lists other than the one at `i` show their rings. */
  ghost predicate OthersShown(lists: seq<List>, i: nat, rings: seq<Ring<TaskId>>, tcb: map<TaskId, Tcb>,
                              blocks: map<TaskId, ControlBlock>)
    requires i < |lists| == |rings|
    reads lists, set i | 0 <= i < |lists| :: lists[i].end
    reads Linked(lists), blocks.Values
  {
    forall j :: 0 <= j < |lists| && j != i ==>
      (assert forall x <- lists[j].Items :: x in Linked(lists); Shown(lists[j], rings[j], tcb, blocks))
  }

  /** The list at `i` shares no memory with the others. */
  ghost predicate DisjointFrom(lists: seq<List>, i: nat)
    requires i < |lists|
    reads lists
  {
    forall j :: 0 <= j < |lists| && j != i ==>
      && lists[i] != lists[j] && lists[i].end != lists[j].end
      && lists[i].end !in lists[j].Items && lists[j].end !in lists[i].Items
      && forall x :: x in lists[i].Items ==> x !in lists[j].Items
  }

  lemma AllDisjoint(lists: seq<List>, rings: seq<Ring<TaskId>>, tcb: map<TaskId, Tcb>,
                    blocks: map<TaskId, ControlBlock>, i: nat)
    requires AllShown(lists, rings, tcb, blocks) && i < |lists|
    ensures DisjointFrom(lists, i) && OthersShown(lists, i, rings, tcb, blocks)
    ensures Shown(lists[i], rings[i], tcb, blocks) && Apart(lists, blocks)
  {
    forall j | 0 <= j < |lists| && j != i
      ensures lists[i] != lists[j] && lists[i].end != lists[j].end
      ensures lists[i].end !in lists[j].Items && lists[j].end !in lists[i].Items
      ensures forall x :: x in lists[i].Items ==> x !in lists[j].Items
    {
      Disjoint(lists[i], lists[j]);
    }
  }

  lemma Together(lists: seq<List>, i: nat, rings: seq<Ring<TaskId>>, r: Ring<TaskId>, tcb: map<TaskId, Tcb>,
                 blocks: map<TaskId, ControlBlock>)
    requires i < |lists| == |rings| && Apart(lists, blocks)
    requires OthersShown(lists, i, rings, tcb, blocks) && Shown(lists[i], r, tcb, blocks)
    ensures AllShown(lists, rings[i := r], tcb, blocks)
  {
  }

  /** The same on one list among several: the others go on showing what they showed. */
  method UnlinkFromBeside(ghost lists: seq<List>, ghost i: nat, b: ControlBlock, ghost rings: seq<Ring<TaskId>>,
                          ghost tcb: map<TaskId, Tcb>, ghost blocks: map<TaskId, ControlBlock>)
    requires i < |lists| == |rings| && Apart(lists, blocks) && DisjointFrom(lists, i)
    requires Shown(lists[i], rings[i], tcb, blocks) && OthersShown(lists, i, rings, tcb, blocks)
    requires b.item.container == lists[i] && b.item in lists[i].Items && b.item.owner == b
    modifies lists[i], lists[i].end, lists[i].Items
    ensures OthersShown(lists, i, rings, tcb, blocks) && rings[i].Valid()
    ensures Shown(lists[i], Unlink(rings[i], b.id), tcb, blocks)
    ensures b.item.container == null && Holds(b.item, b.id, tcb, blocks)
  {
    UnlinkFrom(lists[i], b, rings[i], tcb, blocks);
    forall j | 0 <= j < |lists| && j != i ensures Shown(lists[j], rings[j], tcb, blocks) {
      assert old(Shown(lists[j], rings[j], tcb, blocks));
    }
  }

  method LinkLastBeside(l: List, ghost lists: seq<List>, ghost i: nat, b: ControlBlock,
                        ghost rings: seq<Ring<TaskId>>, ghost tcb: map<TaskId, Tcb>,
                        ghost blocks: map<TaskId, ControlBlock>)
    requires i < |lists| == |rings| && l == lists[i] && Apart(lists, blocks) && DisjointFrom(lists, i)
    requires Shown(l, rings[i], tcb, blocks) && OthersShown(lists, i, rings, tcb, blocks)
    requires b.item.container == null && Holds(b.item, b.id, tcb, blocks)
    modifies l, l.end, l.Items, b.item
    ensures OthersShown(lists, i, rings, tcb, blocks) && rings[i].Valid()
    ensures Shown(l, rings[i].InsertEnd(b.id), tcb, blocks)
  {
    LinkLast(l, b, rings[i], tcb, blocks);
    forall j | 0 <= j < |lists| && j != i ensures Shown(lists[j], rings[j], tcb, blocks) {
      assert old(Shown(lists[j], rings[j], tcb, blocks));
    }
  }

  method LinkByValueBeside(l: List, ghost lists: seq<List>, ghost i: nat, b: ControlBlock,
                           ghost rings: seq<Ring<TaskId>>, ghost tcb: map<TaskId, Tcb>,
                           ghost blocks: map<TaskId, ControlBlock>)
    requires i < |lists| == |rings| && l == lists[i] && Apart(lists, blocks) && DisjointFrom(lists, i)
    requires Shown(l, rings[i], tcb, blocks) && OthersShown(lists, i, rings, tcb, blocks)
    requires b.item.container == null && Holds(b.item, b.id, tcb, blocks)
    modifies l, l.end, l.Items, b.item
    ensures OthersShown(lists, i, rings, tcb, blocks) && rings[i].Valid()
    ensures Shown(l, ByValue(rings[i], b.id, tcb), tcb, blocks)
  {
    LinkByValue(l, b, rings[i], tcb, blocks);
    forall j | 0 <= j < |lists| && j != i ensures Shown(lists[j], rings[j], tcb, blocks) {
      assert old(Shown(lists[j], rings[j], tcb, blocks));
    }
  }

  method NextBeside(l: List, ghost lists: seq<List>, ghost i: nat, ghost rings: seq<Ring<TaskId>>,
                    ghost tcb: map<TaskId, Tcb>, ghost blocks: map<TaskId, ControlBlock>) returns (b: ControlBlock)
    requires i < |lists| == |rings| && l == lists[i] && Apart(lists, blocks) && DisjointFrom(lists, i)
    requires Shown(l, rings[i], tcb, blocks) && OthersShown(lists, i, rings, tcb, blocks) && l.Items != []
    modifies l
    ensures OthersShown(lists, i, rings, tcb, blocks) && rings[i].Valid() && rings[i].items != []
    ensures Shown(l, rings[i].Next(), tcb, blocks) && b.id == rings[i].Next().Indexed()
  {
    b := NextOf(l, rings[i], tcb, blocks);
    forall j | 0 <= j < |lists| && j != i ensures Shown(lists[j], rings[j], tcb, blocks) {
      assert old(Shown(lists[j], rings[j], tcb, blocks));
    }
  }

  // ---------- the lists of a kernel ----------

  /** The state lists of a kernel; the index of all but the ready lists stays at the end marker. */
  function Rings(k: Kernel): (r: seq<Ring<TaskId>>)
    ensures |r| == PRIORITIES + 4
  {
    var ready: seq<Ring<TaskId>> := k.ready;
    ready + [Ring(k.delayed, 0), Ring(k.overflow, 0), Ring(k.suspended, 0), Ring(k.terminated, 0)]
  }

  const DELAYED: nat := PRIORITIES
  const OVERFLOW: nat := PRIORITIES + 1
  const SUSPENDED: nat := PRIORITIES + 2
  const TERMINATED: nat := PRIORITIES + 3

  lemma UnlinkAbsent(l: Ring<TaskId>, t: TaskId)
    requires l.Valid() && t !in l.items
    ensures Unlink(l, t) == l
  {
    WithoutAbsent(l.items, t);
    WithoutAbsent(l.items[..l.index], t);
  }

  /** The one list that a task is on. */
  lemma {:induction false} WhichList(k: Kernel, t: TaskId) returns (i: nat)
    requires Partition(k) && PlacedByPriority(k.tcb, k.ready) && t in k.tcb
    ensures i < PRIORITIES + 4
    ensures forall j :: 0 <= j < PRIORITIES + 4 ==> (t in Rings(k)[j].items <==> j == i)
  {
    Places(k, t);
    i := if k.IsReady(t) then k.PriorityOf(t) else if t in k.delayed then DELAYED
         else if t in k.overflow then OVERFLOW else if t in k.suspended then SUSPENDED else TERMINATED;
  }

  lemma RingsValid(k: Kernel)
    ensures forall j :: 0 <= j < PRIORITIES + 4 ==> Rings(k)[j].Valid()
  {
  }

  lemma UnlistedRing(k: Kernel, t: TaskId, j: nat)
    requires j < PRIORITIES + 4
    ensures Rings(k)[j].Valid() && Rings(Unlist(k, t))[j] == Unlink(Rings(k)[j], t)
  {
    RingsValid(k);
  }

  /** Taking the task off that list does to all lists what taking it off every list does. */
  lemma {:induction false} UnlistedRings(k: Kernel, t: TaskId, i: nat)
    requires i < PRIORITIES + 4
    requires forall j :: 0 <= j < PRIORITIES + 4 ==> (t in Rings(k)[j].items <==> j == i)
    ensures Rings(k)[i].Valid() && Rings(Unlist(k, t)) == Rings(k)[i := Unlink(Rings(k)[i], t)]
  {
    RingsValid(k);
    var r, u := Rings(k), Rings(Unlist(k, t));
    forall j | 0 <= j < PRIORITIES + 4 ensures u[j] == if j == i then Unlink(r[i], t) else r[j] {
      UnlistedRing(k, t, j);
      if j != i {
        UnlinkAbsent(r[j], t);
      }
    }
  }

  lemma ReadiedRings(k: Kernel, t: TaskId)
    ensures var p := k.PriorityOf(t); Rings(MakeReady(k, t)) == Rings(k)[p := Rings(k)[p].InsertEnd(t)]
  {
  }

  /** The control block at position i of the list at index j. */
  lemma LinkedTask(lists: seq<List>, rings: seq<Ring<TaskId>>, tcb: map<TaskId, Tcb>, blocks: map<TaskId, ControlBlock>,
                i: nat, t: TaskId)
    requires AllShown(lists, rings, tcb, blocks) && i < |lists| && t in rings[i].items
    ensures t in blocks && blocks[t].item in lists[i].Items && blocks[t].item.container == lists[i]
    ensures blocks[t].id == t && blocks[t].item.owner == blocks[t] && Holds(blocks[t].item, t, tcb, blocks)
  {
    var p :| 0 <= p < |rings[i].items| && rings[i].items[p] == t;
    assert Holds(lists[i].Items[p], t, tcb, blocks);
  }

  lemma ItemsAreBlocks(lists: seq<List>, rings: seq<Ring<TaskId>>, tcb: map<TaskId, Tcb>,
                       blocks: map<TaskId, ControlBlock>, i: nat)
    requires AllShown(lists, rings, tcb, blocks) && i < |lists|
    ensures forall x :: x in lists[i].Items ==> x in set t | t in blocks :: blocks[t].item
  {
    forall x | x in lists[i].Items ensures x in set t | t in blocks :: blocks[t].item {
      var p :| 0 <= p < |lists[i].Items| && lists[i].Items[p] == x;
      assert Holds(x, rings[i].items[p], tcb, blocks);
    }
  }

  lemma EmptyRings(idle: TaskId)
    ensures forall j :: 0 <= j < PRIORITIES + 4 ==> Rings(TaskRuns.Unready(idle))[j] == Ring([], 0)
    ensures MakeReady(TaskRuns.Unready(idle), idle) == Started(idle)
  {
  }

  ghost predicate Empty(l: List)
    reads l, l.end, l.Items
  {
    l.Valid() && l.Items == [] && l.Position == 0
  }

  ghost predicate NewFor(lists: seq<List>, x: ListItem)
    reads lists, set i | 0 <= i < |lists| :: lists[i].end
    reads Linked(lists)
  {
    && |lists| == PRIORITIES + 4
    && (forall i, j :: 0 <= i < j < |lists| ==> lists[i] != lists[j] && lists[i].end != lists[j].end)
    && (forall i :: 0 <= i < |lists| ==>
          (assert forall y <- lists[i].Items :: y in Linked(lists); Empty(lists[i]) && lists[i].end != x))
  }

  lemma EmptyShown(lists: seq<List>, idle: ControlBlock)
    requires NewFor(lists, idle.item)
    ensures AllShown(lists, Rings(TaskRuns.Unready(idle.id)), TaskRuns.Unready(idle.id).tcb, map[idle.id := idle])
  {
    EmptyRings(idle.id);
  }

  method NewLists(x: ListItem) returns (r: seq<List>)
    ensures NewFor(r, x) && forall i :: 0 <= i < |r| ==> fresh(r[i]) && fresh(r[i].end)
  {
    r := [];
    while |r| < PRIORITIES + 4
      invariant |r| <= PRIORITIES + 4
      invariant forall i :: 0 <= i < |r| ==> Empty(r[i]) && fresh(r[i]) && fresh(r[i].end)
      invariant forall i, j :: 0 <= i < j < |r| ==> r[i] != r[j] && r[i].end != r[j].end
    {
      var l := new List();
      r := r + [l];
    }
  }

  lemma Swapped(lists: seq<List>, rings: seq<Ring<TaskId>>, tcb: map<TaskId, Tcb>, blocks: map<TaskId, ControlBlock>,
                i: nat, j: nat)
    requires AllShown(lists, rings, tcb, blocks) && i < j < |lists|
    ensures AllShown(lists[i := lists[j]][j := lists[i]], rings[i := rings[j]][j := rings[i]], tcb, blocks)
  {
  }

  lemma SwitchedRings(k: Kernel)
    ensures var r, s := Rings(k), SwitchDelayedLists(k);
            Rings(s) == r[DELAYED := r[OVERFLOW]][OVERFLOW := r[DELAYED]] && s.tcb == k.tcb
  {
  }

  lemma AsleepRings(k: Kernel, t: TaskId, wake: Tick)
    requires t in k.tcb
    ensures var s, i := Sleep(k, t, wake), if wake < k.tick then OVERFLOW else DELAYED;
            && s.tcb == k.tcb[t := k.tcb[t].(wakeValue := wake)]
            && Rings(k)[i].Valid() && Rings(s) == Rings(k)[i := ByValue(Rings(k)[i], t, s.tcb)]
  {
    var tcb := k.tcb[t := k.tcb[t].(wakeValue := wake)];
    ByValueAtEnd(k.delayed, t, tcb);
    ByValueAtEnd(k.overflow, t, tcb);
    WithDelayedLists(k, InsertByWake(tcb, k.delayed, t), k.overflow, tcb);
    WithDelayedLists(k, k.delayed, InsertByWake(tcb, k.overflow, t), tcb);
  }

  lemma ByValueAtEnd(s: seq<TaskId>, t: TaskId, tcb: map<TaskId, Tcb>)
    requires t in tcb
    ensures ByValue(Ring(s, 0), t, tcb) == Ring(InsertByWake(tcb, s, t), 0)
  {
  }

  lemma WithDelayedLists(k: Kernel, near: seq<TaskId>, far: seq<TaskId>, tcb: map<TaskId, Tcb>)
    ensures forall next :: Rings(k.(tcb := tcb, delayed := near, overflow := far, nextUnblock := next))
                           == Rings(k)[DELAYED := Ring(near, 0)][OVERFLOW := Ring(far, 0)]
    ensures Rings(k)[DELAYED] == Ring(k.delayed, 0) && Rings(k)[OVERFLOW] == Ring(k.overflow, 0)
  {
  }

  /** A task whose list item is in no list is in no ring. */
  lemma NotLinked(lists: seq<List>, rings: seq<Ring<TaskId>>, tcb: map<TaskId, Tcb>, blocks: map<TaskId, ControlBlock>,
                  b: ControlBlock)
    requires AllShown(lists, rings, tcb, blocks) && b.id in blocks && blocks[b.id] == b && b.item.container == null
    ensures forall i :: 0 <= i < |lists| ==> b.id !in rings[i].items && b.item !in lists[i].Items
  {
    forall i | 0 <= i < |lists| ensures b.id !in rings[i].items && b.item !in lists[i].Items {
      if b.id in rings[i].items {
        LinkedTask(lists, rings, tcb, blocks, i, b.id);
      }
    }
  }

  /** The list variables of tasks.c. */
  class StateLists {
    const ready: seq<List>   // pxReadyTasksLists
    var delayed: List        // pxDelayedTaskList
    var overflow: List       // pxOverflowDelayedTaskList
    const suspended: List    // xSuspendedTaskList
    const terminated: List   // xTasksWaitingTermination
    ghost var blocks: map<TaskId, ControlBlock>

    /** prvInitialiseTaskLists.  Linking the idle task into its ready list makes of this the started kernel. */
    constructor (idle: ControlBlock)
      ensures Shows(TaskRuns.Unready(idle.id)) && blocks == map[idle.id := idle]
      ensures forall l <- All() :: fresh(l) && fresh(l.end)
      ensures MakeReady(TaskRuns.Unready(idle.id), idle.id) == Started(idle.id)
    {
      var r := NewLists(idle.item);
      ready, delayed, overflow, suspended, terminated := r[..PRIORITIES], r[5], r[6], r[7], r[8];
      blocks := map[idle.id := idle];
      new;
      assert All() == r;
      EmptyShown(r, idle);
      EmptyRings(idle.id);
    }

    ghost function All(): (lists: seq<List>)
      reads this
      ensures |lists| == |ready| + 4
    {
      ready + [delayed, overflow, suspended, terminated]
    }

    /** The memory of the lists and of all list items. */
    ghost function Region(): (r: set<object>)
      reads this
      ensures this !in r
    {
      var lists: set<object> := {delayed, overflow, suspended, terminated} + set l <- ready;
      var ends: set<object> := {delayed.end, overflow.end, suspended.end, terminated.end} + set l <- ready :: l.end;
      var items: set<object> := set t | t in blocks :: blocks[t].item;
      lists + ends + items
    }

    ghost predicate Shows(k: Kernel)
      reads this, All(), set i | 0 <= i < |All()| :: All()[i].end
      reads Linked(All()), blocks.Values
    {
      |ready| == PRIORITIES && AllShown(All(), Rings(k), k.tcb, blocks)
    }

    lemma InRegion(i: nat)
      requires i < |All()|
      ensures All()[i] in Region() && All()[i].end in Region()
    {
    }

    /** uxListRemove of the generic list item of a task, whichever list it is in. */
    method UnlinkGeneric(b: ControlBlock, ghost k: Kernel)
      requires Shows(k) && Partition(k) && PlacedByPriority(k.tcb, k.ready)
      requires b.id in k.tcb && b.id in blocks && blocks[b.id] == b
      modifies Region()
      ensures Shows(Unlist(k, b.id)) && b.item.container == null && Holds(b.item, b.id, k.tcb, blocks)
    {
      ghost var i := WhichList(k, b.id);
      RingsValid(k);
      UnlistedRings(k, b.id, i);
      LinkedTask(All(), Rings(k), k.tcb, blocks, i, b.id);
      ItemsAreBlocks(All(), Rings(k), k.tcb, blocks, i);
      AllDisjoint(All(), Rings(k), k.tcb, blocks, i);
      InRegion(i);
      UnlinkFromBeside(All(), i, b, Rings(k), k.tcb, blocks);
      assert Holds(b.item, b.id, k.tcb, blocks);
      Together(All(), i, Rings(k), Unlink(Rings(k)[i], b.id), k.tcb, blocks);
    }

    /** prvAddTaskToReadyList. */
    method AddToReadyList(b: ControlBlock, ghost k: Kernel)
      requires Shows(k) && b.item.container == null && Holds(b.item, b.id, k.tcb, blocks) && blocks[b.id] == b
      modifies Region()
      ensures Shows(MakeReady(k, b.id))
    {
      ghost var p := b.priority;
      ReadiedRings(k, b.id);
      ItemsAreBlocks(All(), Rings(k), k.tcb, blocks, p);
      AllDisjoint(All(), Rings(k), k.tcb, blocks, p);
      InRegion(p);
      LinkLastBeside(ready[b.priority], All(), p, b, Rings(k), k.tcb, blocks);
      Together(All(), p, Rings(k), Rings(k)[p].InsertEnd(b.id), k.tcb, blocks);
    }

    /** taskSWITCH_DELAYED_LISTS. */
    method SwitchLists(ghost k: Kernel)
      requires Shows(k)
      modifies `delayed, `overflow
      ensures Shows(SwitchDelayedLists(k)) && Region() == old(Region())
    {
      Swapped(All(), Rings(k), k.tcb, blocks, DELAYED, OVERFLOW);
      SwitchedRings(k);
      ghost var all := All()[DELAYED := All()[OVERFLOW]][OVERFLOW := All()[DELAYED]];
      delayed, overflow := overflow, delayed;
      assert All() == all;
    }

    /** prvAddCurrentTaskToDelayedList: `b` is the calling task, which has been unlinked. */
    method AddToDelayedList(b: ControlBlock, wake: Tick, tick: Tick, ghost k: Kernel)
      requires Shows(k) && b.item.container == null && Holds(b.item, b.id, k.tcb, blocks) && blocks[b.id] == b
      requires tick == k.tick
      modifies Region()
      ensures Shows(Sleep(k, b.id, wake))
    {
      ghost var tcb, i := k.tcb[b.id := k.tcb[b.id].(wakeValue := wake)], if wake < tick then OVERFLOW else DELAYED;
      SetWakeValue(b, wake, k);
      RingsValid(k);
      ItemsAreBlocks(All(), Rings(k), tcb, blocks, i);
      AllDisjoint(All(), Rings(k), tcb, blocks, i);
      InRegion(i);
      LinkByValueBeside(if wake < tick then overflow else delayed, All(), i, b, Rings(k), tcb, blocks);
      Together(All(), i, Rings(k), ByValue(Rings(k)[i], b.id, tcb), tcb, blocks);
      AsleepRings(k, b.id, wake);
    }

    /** listSET_LIST_ITEM_VALUE on an item that is linked in nowhere. */
    method SetWakeValue(b: ControlBlock, wake: Tick, ghost k: Kernel)
      requires Shows(k) && b.item.container == null && Holds(b.item, b.id, k.tcb, blocks) && blocks[b.id] == b
      modifies b.item`value
      ensures var tcb := k.tcb[b.id := k.tcb[b.id].(wakeValue := wake)];
              AllShown(All(), Rings(k), tcb, blocks) && Holds(b.item, b.id, tcb, blocks)
    {
      NotLinked(All(), Rings(k), k.tcb, blocks, b);
      b.item.value := wake;
    }

    lemma ShowsAlike(k: Kernel, r: Kernel)
      requires Shows(k) && Rings(r) == Rings(k) && r.tcb == k.tcb
      ensures Shows(r)
    {
    }

    lemma DelayedShown(k: Kernel)
      requires Shows(k)
      ensures Shown(delayed, Ring(k.delayed, 0), k.tcb, blocks)
    {
      assert All()[DELAYED] == delayed && Rings(k)[DELAYED] == Ring(k.delayed, 0);
    }

    /** The owner and the value of the first entry of the current delayed list, if there is one. */
    method FirstDelayed(ghost k: Kernel) returns (first: Option<ControlBlock>, wake: Tick)
      requires Shows(k)
      ensures first.None? <==> k.delayed == []
      ensures first.Some? ==>
                var b := first.value;
                && b.id == k.delayed[0] && b.id in blocks && blocks[b.id] == b && wake == WakeOf(k.tcb, b.id)
                && b.id in k.tcb && b.priority == k.tcb[b.id].priority
      ensures Shows(k)
    {
      DelayedShown(k);
      first, wake := None, 0;
      if delayed.count > 0 {
        var b;
        b, wake := Head(delayed, Ring(k.delayed, 0), k.tcb, blocks);
        first := Some(b);
      }
    }

    /** A due task moves from the delayed list to the ready list of its priority. */
    method MoveToReady(b: ControlBlock, ghost k: Kernel)
      requires Shows(k) && Partition(k) && PlacedByPriority(k.tcb, k.ready)
      requires b.id in k.tcb && b.id in blocks && blocks[b.id] == b
      modifies Region()
      ensures Shows(ReadyUp(k, b.id))
    {
      UnlinkGeneric(b, k);
      AddToReadyList(b, Unlist(k, b.id));
      EventsAside(k, b.id);
    }

    /** The unblocking loop of xTaskIncrementTick on the linked lists. */
    method UnblockDueTasks(tick: Tick, current: Priority, ghost k: Kernel)
      returns (switchRequired: bool, nextUnblock: Tick)
      requires Shows(k) && Looping(k) && tick == k.tick && current == k.PriorityOf(k.current)
      modifies Region()
      ensures Shows(WakeDue(k, false).0)
      ensures switchRequired == WakeDue(k, false).1 && nextUnblock == WakeDue(k, false).0.nextUnblock
    {
      switchRequired := false;
      ghost var m := k;
      while true
        invariant Region() == old(Region()) && Shows(m) && Looping(m)
        invariant m.tick == tick && m.PriorityOf(m.current) == current
        invariant WakeDue(m, switchRequired) == WakeDue(k, false)
        decreases |m.delayed|
      {
        var first, wake := FirstDelayed(m);
        if first.None? {
          nextUnblock := MAX_DELAY;
          break;
        }
        if tick < wake {
          nextUnblock := wake;
          break;
        }
        var b := first.value;
        RoundKeeps(m, switchRequired);
        if b.priority >= current {
          switchRequired := true;
        }
        MoveToReady(b, m);
        m := ReadyUp(m, b.id);
      }
      LoopEnds(m, switchRequired);
      ShowsAlike(m, WakeDue(k, false).0);
    }

    /** xTaskIncrementTick on the linked lists, while the scheduler is not suspended: the new tick count and next
        unblock time, and whether a task was readied that calls for a switch. */
    method IncrementTick(tick: Tick, nextUnblock: Tick, current: Priority, ghost k: Kernel)
      returns (now: Tick, next: Tick, switchRequired: bool)
      requires Shows(k) && Inv(k) && k.suspensions == 0
      requires tick == k.tick && nextUnblock == k.nextUnblock && current == k.PriorityOf(k.current)
      modifies `delayed, `overflow, Region()
      ensures Shows(LiveTick(k).0) && now == LiveTick(k).0.tick && next == LiveTick(k).0.nextUnblock
      ensures switchRequired == TickReadies(k)
    {
      AdvancedIsDue(k);
      TickParts(k);
      LiveTickKeeps(k);
      now, next := Advance(tick, nextUnblock, k);
      switchRequired := false;
      if now >= next {
        switchRequired, next := UnblockDueTasks(now, current, Advanced(k));
      }
    }

    /** The new tick count, and the list switch that comes with 0. */
    method Advance(tick: Tick, nextUnblock: Tick, ghost k: Kernel) returns (now: Tick, next: Tick)
      requires Shows(k) && tick == k.tick && nextUnblock == k.nextUnblock
      modifies `delayed, `overflow
      ensures Shows(Advanced(k)) && Region() == old(Region())
      ensures now == Advanced(k).tick && next == Advanced(k).nextUnblock
    {
      TickParts(k);
      now, next := Plus(tick, 1), nextUnblock;
      ghost var k1 := k.(tick := now);
      ShowsAlike(k, k1);
      if now == 0 {
        SwitchLists(k1);
        next := NextWakeTime(Advanced(k));
      }
    }

    /** prvResetNextTaskUnblockTime. */
    method NextWakeTime(ghost k: Kernel) returns (next: Tick)
      requires Shows(k)
      ensures next == ResetNextUnblock(k).nextUnblock && Shows(k)
    {
      var first, wake := FirstDelayed(k);
      next := if first.None? then MAX_DELAY else wake;
    }

    lemma ReadyShown(p: Priority, k: Kernel)
      requires Shows(k)
      ensures Shown(ready[p], k.ready[p], k.tcb, blocks)
    {
      assert All()[p] == ready[p] && Rings(k)[p] == k.ready[p];
    }

    /** listGET_OWNER_OF_NEXT_ENTRY on a ready list. */
    method NextReady(p: Priority, ghost k: Kernel) returns (b: ControlBlock)
      requires Shows(k) && k.ready[p].items != []
      modifies ready[p]
      ensures b.id == k.ready[p].Next().Indexed() && Shows(k.(ready := k.ready[p := k.ready[p].Next()]))
    {
      ReadyShown(p, k);
      AllDisjoint(All(), Rings(k), k.tcb, blocks, p);
      b := NextBeside(ready[p], All(), p, Rings(k), k.tcb, blocks);
      Together(All(), p, Rings(k), k.ready[p].Next(), k.tcb, blocks);
      TurnedRings(k, p);
    }

    /** The search of taskSELECT_HIGHEST_PRIORITY_TASK. */
    method FindHighest(top: Priority, ghost k: Kernel) returns (found: Priority)
      requires Shows(k) && k.ready[HighestReady(k.ready, top)].items != []
      ensures found == HighestReady(k.ready, top)
    {
      found := top;
      ReadyShown(found, k);
      while ready[found].count == 0
        invariant HighestReady(k.ready, found) == HighestReady(k.ready, top)
        invariant Shown(ready[found], k.ready[found], k.tcb, blocks)
        decreases found
      {
        assert found > 0;
        found := found - 1;
        ReadyShown(found, k);
      }
    }

    /** taskSELECT_HIGHEST_PRIORITY_TASK, given the top priority found. */
    method SelectHighest(found: Priority, ghost k: Kernel) returns (b: ControlBlock)
      requires Shows(k) && k.suspensions == 0
      requires found == HighestReady(k.ready, k.topReady) && k.ready[found].items != []
      modifies ready[found]
      ensures b.id == Tasks.SwitchContext(k).current && Shows(Tasks.SwitchContext(k))
    {
      SelectedRings(k, found);
      b := NextReady(found, k);
      ShowsAlike(k.(ready := k.ready[found := k.ready[found].Next()]), Tasks.SwitchContext(k));
    }
  }

  lemma SelectedRings(k: Kernel, p: Priority)
    requires k.suspensions == 0 && p == HighestReady(k.ready, k.topReady) && k.ready[p].items != []
    ensures var s, r := Tasks.SwitchContext(k), k.(ready := k.ready[p := k.ready[p].Next()]);
            && Rings(s) == Rings(r) && s.tcb == r.tcb && s.current == k.ready[p].Next().Indexed()
  {
  }

  ghost predicate TickReadies(k: Kernel) {
    var a := Advanced(k);
    a.tick >= a.nextUnblock && WakeDue(a, false).1
  }

  lemma TickParts(k: Kernel)
    ensures var a := Advanced(k);
            && a.tick == Plus(k.tick, 1) && a.tcb == k.tcb && a.current == k.current
            && (a.tick == 0 ==>
                  a == SwitchDelayedLists(k.(tick := 0)) && a.nextUnblock == ResetNextUnblock(a).nextUnblock)
            && (a.tick != 0 ==> a == k.(tick := a.tick))
            && LiveTick(k).0 == if a.tick >= a.nextUnblock then WakeDue(a, false).0 else a
  {
  }

  lemma TurnedRings(k: Kernel, p: Priority)
    requires k.ready[p].items != []
    ensures var l: ReadyList := k.ready[p].Next();
            Rings(k.(ready := k.ready[p := l])) == Rings(k)[p := l]
  {
  }

  /** What the unblocking loop starts from and keeps. */
  ghost predicate Looping(k: Kernel) {
    WellFormed(k) && k.pending == [] && Due(k)
  }

  lemma {:induction false} RoundKeeps(k: Kernel, switch: bool)
    requires Looping(k) && k.delayed != [] && WakeOf(k.tcb, k.delayed[0]) <= k.tick
    ensures var t := k.delayed[0];
            var r := ReadyUp(k, t);
            && Looping(r) && r.tick == k.tick && r.PriorityOf(r.current) == k.PriorityOf(k.current)
            && |r.delayed| < |k.delayed|
            && WakeDue(k, switch) == WakeDue(r, switch || k.PriorityOf(t) >= k.PriorityOf(k.current))
  {
    DueStep(k);
    ReadyUpKeepsTime(k, k.delayed[0]);
    WithoutOneLess(k.delayed);
    WakeDueRound(k, switch);
  }

  lemma WakeDueRound(k: Kernel, switch: bool)
    requires k.delayed != [] && WakeOf(k.tcb, k.delayed[0]) <= k.tick
    ensures var t := k.delayed[0];
            WakeDue(k, switch) == WakeDue(ReadyUp(k, t), switch || k.PriorityOf(t) >= k.PriorityOf(k.current))
  {
  }

  lemma ReadyUpKeepsTime(k: Kernel, t: TaskId)
    ensures var r := ReadyUp(k, t); r.tick == k.tick && r.tcb == k.tcb && r.current == k.current
  {
  }

  lemma WithoutOneLess(s: seq<TaskId>)
    requires s != []
    ensures |Without(s, s[0])| < |s|
  {
  }

  lemma LoopEnds(k: Kernel, switch: bool)
    requires k.delayed == [] || k.tick < WakeOf(k.tcb, k.delayed[0])
    ensures var (r, s) := WakeDue(k, switch);
            && s == switch && Rings(r) == Rings(k) && r.tcb == k.tcb
            && r.nextUnblock == if k.delayed == [] then MAX_DELAY else WakeOf(k.tcb, k.delayed[0])
  {
  }

  /** The state lists do not depend on the event items. */
  lemma EventsAside(k: Kernel, t: TaskId)
    ensures Rings(ReadyUp(k, t)) == Rings(MakeReady(Unlist(k, t), t)) && ReadyUp(k, t).tcb == k.tcb
  {
  }
}
