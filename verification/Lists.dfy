/** The intrusive, circular, doubly linked list of list.c and list.h, proved at heap level.

    `Items` is the ghost sequence of linked items from head to tail and `Position` says where in the
    circle the roving index stands; every operation is tied to the corresponding function of
    `ListModel` on that pair. */
module Lists {
  import opened Ticks
  import opened ListModel

  /** ListItem_t.  The end marker (MiniListItem_t) is one of these too, as the casts of list.c have it. */
  class ListItem {
    var value: Tick
    var next: ListItem?
    var previous: ListItem?
    var owner: object?
    var container: List?

    /** vListInitialiseItem, together with the two "set" macros callers follow it with. */
    constructor (value: Tick, owner: object?)
      ensures container == null && this.value == value && this.owner == owner
    {
      this.value, this.owner := value, owner;
      next, previous, container := null, null, null;
    }
  }

  /** Position k of the circle end, s[0], s[1], ..., end. */
  ghost function Node(end: ListItem, s: seq<ListItem>, k: int): ListItem
    requires 0 <= k <= |s| + 1
  {
    if k == 0 || k == |s| + 1 then end else s[k - 1]
  }

  /** The circle is linked in both directions. */
  ghost predicate Circle(end: ListItem, s: seq<ListItem>)
    reads end`next, end`previous, s`next, s`previous
  {
    && end !in s
    && Distinct(s)
    && (forall k {:trigger Node(end, s, k)} :: 0 <= k <= |s| ==>
          Node(end, s, k).next == if k == |s| then end else s[k])
    && (forall k {:trigger Node(end, s, k)} :: 1 <= k <= |s| + 1 ==>
          Node(end, s, k).previous == if k == 1 then end else s[k - 2])
  }

  class List {
    var count: nat
    var index: ListItem
    const end: ListItem
    ghost var Items: seq<ListItem>
    ghost var Position: nat

    ghost predicate Valid()
      reads this, end, Items
    {
      && end.value == MAX_DELAY
      && end.container == null
      && Circle(end, Items)
      && count == |Items|
      && Position <= |Items|
      && index == Node(end, Items, Position)
      && (forall i :: 0 <= i < |Items| ==> Items[i].container == this)
    }

    ghost function Model(): (r: Ring<ListItem>)
      reads this
      requires Position <= |Items|
      ensures r.Valid()
    {
      Ring(Items, Position)
    }

    ghost function Values(): (r: seq<Tick>)
      reads this, Items
      ensures |r| == |Items| && forall i :: 0 <= i < |r| ==> r[i] == Items[i].value
    {
      seq(|Items|, i requires 0 <= i < |Items| reads this, Items => Items[i].value)
    }

    /** vListInitialise. */
    constructor ()
      ensures Valid() && fresh(end) && Items == [] && Position == 0
    {
      var e := new ListItem(MAX_DELAY, null);
      end, index, count := e, e, 0;
      Items, Position := [], 0;
      new;
      end.next, end.previous := end, end;
    }

    /** vListInsertEnd. */
    method InsertEnd(x: ListItem)
      requires Valid() && x.container == null && x != end
      modifies this, x, end, Items
      ensures Valid() && Model() == old(Model()).InsertEnd(x)
      ensures x.value == old(x.value) && x.owner == old(x.owner)
      ensures forall y <- old(Items) :: y.value == old(y.value) && y.owner == old(y.owner)
    {
      ghost var p := if Position == 0 then |Items| else Position - 1;
      assert index == Node(end, Items, p + 1);
      assert index.previous == Node(end, Items, p);
      LinkBetween(index.previous, x, index, p);
    }

    /** vListInsert. */
    method Insert(x: ListItem)
      requires Valid() && x.container == null && x != end
      modifies this, x, end, Items
      ensures Valid() && Model() == old(Model()).InsertAt(InsertPos(old(Values()), old(x.value)), x)
      ensures x.value == old(x.value) && x.owner == old(x.owner)
      ensures forall y <- old(Items) :: y.value == old(y.value) && y.owner == old(y.owner)
    {
      var predecessor;
      ghost var p;
      predecessor, p := Search(x.value);
      assert predecessor.next == Node(end, Items, p + 1);
      LinkBetween(predecessor, x, predecessor.next, p);
    }

    /** What both insertions end with: x goes in between two neighbours. */
    method LinkBetween(predecessor: ListItem, x: ListItem, successor: ListItem, ghost p: nat)
      requires Valid() && x.container == null && x != end && p <= |Items|
      requires predecessor == Node(end, Items, p) && successor == Node(end, Items, p + 1)
      modifies this, x, predecessor`next, successor`previous
      ensures Valid() && Model() == old(Model()).InsertAt(p, x)
      ensures x.value == old(x.value) && x.owner == old(x.owner)
    {
      Splice(predecessor, x, successor, p);
      Adopt(x, p);
    }

    /** The rest of both insertions: container and count, with x in the circle already. */
    method Adopt(x: ListItem, ghost p: nat)
      requires end.value == MAX_DELAY && end.container == null && x != end
      requires p <= |Items| && Circle(end, Put(Items, p, x))
      requires count == |Items| && Position <= |Items| && index == Node(end, Items, Position)
      requires forall i :: 0 <= i < |Items| ==> Items[i].container == this
      modifies this, x`container
      ensures Valid() && Model() == old(Model()).InsertAt(p, x)
    {
      x.container := this;
      count := count + 1;
      PutNode(end, Items, p, x, if p < Position then Position + 1 else Position);
      PutContained(this, Items, p, x);
      Position := if p < Position then Position + 1 else Position;
      Items := Put(Items, p, x);
    }

    /** The four pointer updates. */
    method Splice(predecessor: ListItem, x: ListItem, successor: ListItem, ghost p: nat)
      requires Circle(end, Items) && x != end && x !in Items && p <= |Items|
      requires predecessor == Node(end, Items, p) && successor == Node(end, Items, p + 1)
      modifies x`next, x`previous, predecessor`next, successor`previous
      ensures Circle(end, Put(Items, p, x))
    {
      PointersElsewhere(end, Items, p, p + 1);
      x.next := successor;
      successor.previous := x;
      x.previous := predecessor;
      predecessor.next := x;
      LinkIn(x, p);
    }

    /** The search of vListInsert for the item to link behind. */
    method Search(value: Tick) returns (predecessor: ListItem, ghost p: nat)
      requires Valid()
      ensures predecessor == Node(end, Items, InsertPos(Values(), value))
      ensures p == InsertPos(Values(), value)
    {
      if value == MAX_DELAY {
        assert end == Node(end, Items, |Items| + 1);
        predecessor, p := end.previous, |Items|;
      } else {
        predecessor, p := end, 0;
        while predecessor.next.value <= value
          invariant p <= |Items| && predecessor == Node(end, Items, p)
          invariant forall i :: 0 <= i < p ==> Values()[i] <= value
          decreases |Items| - p
        {
          assert Node(end, Items, p + 1) == predecessor.next;
          predecessor, p := predecessor.next, p + 1;
        }
        assert Node(end, Items, p + 1) == predecessor.next;
      }
      PositionIsUnique(Values(), value, p);
    }

    /** uxListRemove: the list is found through the item. */
    static method Remove(x: ListItem) returns (left: nat)
      requires x.container != null && x.container.Valid() && x in x.container.Items
      modifies x, x.container, x.container.end, x.container.Items
      ensures var l := old(x.container);
              && l.Valid() && l.Model() == Unlink(old(x.container.Model()), x)
              && left == |l.Items| == |old(x.container.Items)| - 1
              && (forall y <- old(x.container.Items) :: y.value == old(y.value) && y.owner == old(y.owner))
      ensures x.container == null && x.value == old(x.value) && x.owner == old(x.owner)
    {
      ghost var p :| 0 <= p < |x.container.Items| && x.container.Items[p] == x;
      UnlinkAt(x.container.Model(), p);
      assert x == Node(x.container.end, x.container.Items, p + 1);
      left := x.container.UnlinkBetween(x.previous, x, x.next, p);
    }

    /** The body of uxListRemove, once the list is known. */
    method UnlinkBetween(predecessor: ListItem, x: ListItem, successor: ListItem, ghost p: nat)
      returns (left: nat)
      requires Valid() && p < |Items| && x == Items[p]
      requires predecessor == Node(end, Items, p) && successor == Node(end, Items, p + 2)
      modifies this, x`container, predecessor`next, successor`previous
      ensures Valid() && left == |Items|
      ensures Items == Drop(old(Items), p)
      ensures Position == if p < old(Position) then old(Position) - 1 else old(Position)
      ensures x.container == null
    {
      Unsplice(predecessor, successor, p);
      left := Disown(predecessor, x, p);
    }

    /** The rest of uxListRemove: index, container and count, with x out of the circle already. */
    method Disown(predecessor: ListItem, x: ListItem, ghost p: nat) returns (left: nat)
      requires end.value == MAX_DELAY && end.container == null && end !in Items && Distinct(Items)
      requires p < |Items| && x == Items[p] && predecessor == Node(end, Items, p) && Circle(end, Drop(Items, p))
      requires count == |Items| && Position <= |Items| && index == Node(end, Items, Position)
      requires forall i :: 0 <= i < |Items| ==> Items[i].container == this
      modifies this, x`container
      ensures Valid() && left == |Items|
      ensures Items == Drop(old(Items), p)
      ensures Position == if p < old(Position) then old(Position) - 1 else old(Position)
      ensures x.container == null
    {
      assert x == Node(end, Items, p + 1);
      IndexIsUnique(end, Items, Position, p + 1);
      if index == x {
        index := predecessor;
      }
      x.container := null;
      count := count - 1;
      left := count;
      DropNode(end, Items, p, if p < Position then Position - 1 else Position);
      DropContained(this, Items, p);
      Position := if p < Position then Position - 1 else Position;
      Items := Drop(Items, p);
    }

    /** The two pointer updates of uxListRemove. */
    method Unsplice(predecessor: ListItem, successor: ListItem, ghost p: nat)
      requires Circle(end, Items) && p < |Items|
      requires predecessor == Node(end, Items, p) && successor == Node(end, Items, p + 2)
      modifies successor`previous, predecessor`next
      ensures Circle(end, Drop(Items, p))
      ensures Items[p].previous == old(Items[p].previous)
    {
      PointersElsewhere(end, Items, p, p + 2);
      successor.previous := predecessor;
      predecessor.next := successor;
      LinkOut(p);
    }

    /** Linking x in between positions p and p + 1 makes a circle again. */
    twostate lemma LinkIn(new x: ListItem, p: nat)
      requires Items == old(Items) && old(Circle(end, Items)) && x != end && x !in Items && p <= |Items|
      requires x.previous == Node(end, Items, p) && x.next == Node(end, Items, p + 1)
      requires Node(end, Items, p).next == x && Node(end, Items, p + 1).previous == x
      requires forall k {:trigger Node(end, Items, k)} :: 0 <= k <= |Items| && k != p ==>
                 Node(end, Items, k).next == old(Node(end, Items, k).next)
      requires forall k {:trigger Node(end, Items, k)} :: 1 <= k <= |Items| + 1 && k != p + 1 ==>
                 Node(end, Items, k).previous == old(Node(end, Items, k).previous)
      ensures Circle(end, Put(Items, p, x))
    {
      var s := Items;
      PutDistinct(s, p, x);
      PutAt(s, p, x);
      var r := Put(s, p, x);
      assert end !in r;
      forall k {:trigger Node(end, r, k)} | 0 <= k <= |r|
        ensures Node(end, r, k).next == if k == |r| then end else r[k]
      {
        PutNode(end, s, p, x, k);
        if k < p {
          assert Node(end, s, k).next == s[k];
        } else if k > p + 1 {
          assert Node(end, s, k - 1).next == if k - 1 == |s| then end else s[k - 1];
        }
      }
      forall k {:trigger Node(end, r, k)} | 1 <= k <= |r| + 1
        ensures Node(end, r, k).previous == if k == 1 then end else r[k - 2]
      {
        PutNode(end, s, p, x, k);
        if k <= p {
          assert Node(end, s, k).previous == if k == 1 then end else s[k - 2];
        } else if k > p + 2 {
          assert Node(end, s, k - 1).previous == s[k - 3];
        }
      }
    }

    /** Linking the neighbours of s[p] to each other leaves a circle of the others. */
    twostate lemma LinkOut(p: nat)
      requires Items == old(Items) && old(Circle(end, Items)) && p < |Items|
      requires Node(end, Items, p).next == Node(end, Items, p + 2)
               && Node(end, Items, p + 2).previous == Node(end, Items, p)
      requires forall k {:trigger Node(end, Items, k)} :: 0 <= k <= |Items| && k != p && k != p + 1 ==>
                 Node(end, Items, k).next == old(Node(end, Items, k).next)
      requires forall k {:trigger Node(end, Items, k)} :: 1 <= k <= |Items| + 1 && k != p + 1 && k != p + 2 ==>
                 Node(end, Items, k).previous == old(Node(end, Items, k).previous)
      ensures Circle(end, Drop(Items, p))
    {
      var s := Items;
      DropDistinct(s, p);
      DropAt(s, p);
      var r := Drop(s, p);
      assert end !in r;
      forall k {:trigger Node(end, r, k)} | 0 <= k <= |r|
        ensures Node(end, r, k).next == if k == |r| then end else r[k]
      {
        DropNode(end, s, p, k);
        if k < p {
          assert Node(end, s, k).next == s[k];
        } else if k > p {
          assert Node(end, s, k + 1).next == if k + 1 == |s| then end else s[k + 1];
        }
      }
      forall k {:trigger Node(end, r, k)} | 1 <= k <= |r| + 1
        ensures Node(end, r, k).previous == if k == 1 then end else r[k - 2]
      {
        if k <= p {
          DropNode(end, s, p, k);
          assert Node(end, s, k).previous == if k == 1 then end else s[k - 2];
        } else if k > p + 1 {
          DropNode(end, s, p, k);
          assert Node(end, s, k + 1).previous == s[k - 1];
        }
      }
    }

    /** listGET_OWNER_OF_NEXT_ENTRY. */
    method OwnerOfNextEntry() returns (owner: object?)
      requires Valid() && Items != []
      modifies this
      ensures Valid() && Model() == old(Model()).Next()
      ensures owner == Model().Indexed().owner
    {
      assert Node(end, Items, Position).next == Node(end, Items, Position + 1);
      assert Node(end, Items, 0).next == Node(end, Items, 1);
      index := index.next;
      if index == end {
        index := index.next;
      }
      owner := index.owner;
      Position := if Position == |Items| then 1 else Position + 1;
    }

    /** listGET_OWNER_OF_HEAD_ENTRY and listGET_ITEM_VALUE_OF_HEAD_ENTRY. */
    method HeadEntry() returns (owner: object?, value: Tick)
      requires Valid() && Items != []
      ensures owner == Items[0].owner && value == Values()[0]
    {
      assert Node(end, Items, 0).next == Node(end, Items, 1);
      owner, value := end.next.owner, end.next.value;
    }

    /** listIS_CONTAINED_WITHIN: true of every linked item, and false of an item initialised or removed since. */
    method Contains(x: ListItem) returns (r: bool)
      requires Valid()
      ensures r <==> x.container == this
      ensures x in Items ==> r
      ensures x.container == null ==> !r
    {
      r := x.container == this;
    }
  }

  // ---------- pointer surgery ----------

  lemma PutContained(l: List, s: seq<ListItem>, p: nat, x: ListItem)
    requires p <= |s| && x.container == l && forall i :: 0 <= i < |s| ==> s[i].container == l
    ensures forall i :: 0 <= i < |Put(s, p, x)| ==> Put(s, p, x)[i].container == l
  {
    PutAt(s, p, x);
  }

  lemma DropContained(l: List, s: seq<ListItem>, p: nat)
    requires p < |s| && Distinct(s) && forall i :: 0 <= i < |s| && i != p ==> s[i].container == l
    ensures forall i :: 0 <= i < |Drop(s, p)| ==> Drop(s, p)[i].container == l
  {
    DropAt(s, p);
  }

  lemma IndexIsUnique(end: ListItem, s: seq<ListItem>, i: int, j: int)
    requires end !in s && Distinct(s) && 0 <= i <= |s| && 0 <= j <= |s|
    ensures Node(end, s, i) == Node(end, s, j) <==> i == j
  {
    if i != j {
      if i == 0 {
        assert s[j - 1] in s;
      } else if j == 0 {
        assert s[i - 1] in s;
      }
    }
  }

  /** The node at position p, as the owner of a next pointer, is at no other such position, and the
      node at position q, as the owner of a previous pointer, likewise. */
  lemma PointersElsewhere(end: ListItem, s: seq<ListItem>, p: nat, q: nat)
    requires end !in s && Distinct(s) && p <= |s| && 1 <= q <= |s| + 1
    ensures forall k {:trigger Node(end, s, k)} :: 0 <= k <= |s| && k != p ==> Node(end, s, k) != Node(end, s, p)
    ensures forall k {:trigger Node(end, s, k)} :: 1 <= k <= |s| + 1 && k != q ==> Node(end, s, k) != Node(end, s, q)
  {
    forall k {:trigger Node(end, s, k)} | 0 <= k <= |s| && k != p
      ensures Node(end, s, k) != Node(end, s, p)
    {
      IndexIsUnique(end, s, k, p);
    }
    forall k {:trigger Node(end, s, k)} | 1 <= k <= |s| + 1 && k != q
      ensures Node(end, s, k) != Node(end, s, q)
    {
      IndexIsUnique(end, s, if k == |s| + 1 then 0 else k, if q == |s| + 1 then 0 else q);
    }
  }

  lemma PutNode(end: ListItem, s: seq<ListItem>, p: nat, x: ListItem, k: int)
    requires p <= |s| && 0 <= k <= |s| + 2
    ensures Node(end, Put(s, p, x), k) ==
              if k <= p then Node(end, s, k) else if k == p + 1 then x else Node(end, s, k - 1)
  {
    PutAt(s, p, x);
  }

  lemma DropNode(end: ListItem, s: seq<ListItem>, p: nat, k: int)
    requires p < |s| && 0 <= k <= |s|
    ensures Node(end, Drop(s, p), k) == if k <= p then Node(end, s, k) else Node(end, s, k + 1)
  {
    DropAt(s, p);
  }

  /** The two facts that end the search determine the insertion point. */
  lemma {:induction false} PositionIsUnique(values: seq<Tick>, v: Tick, p: nat)
    requires p <= |values|
    requires forall i :: 0 <= i < p ==> values[i] <= v
    requires p < |values| ==> v < values[p]
    ensures p == InsertPos(values, v)
  {
    if p > 0 {
      assert values[0] <= v;
      PositionIsUnique(values[1..], v, p - 1);
    }
  }
}
