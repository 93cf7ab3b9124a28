/** What the kernel's lists do, as functions on sequences.

    `Lists` proves the pointer-based list of list.c against these functions; every other module uses
    them for the lists it keeps. */
module ListModel {
  import opened Ticks

  /** The items in list order and the position of the roving index (`pxIndex`) in the circle
      "end marker, items[0], items[1], ...": 0 is the end marker, k is items[k-1]. */
  datatype Ring<T> = Ring(items: seq<T>, index: nat) {

    predicate Valid() {
      index <= |items|
    }

    /** The items in the order in which the next |items| calls of the "owner of next entry" macro
        would return them. */
    function Upcoming(): (u: seq<T>)
      requires Valid()
      ensures |u| == |items|
    {
      items[index..] + items[..index]
    }

    /** Links `x` in as items[p]; the index keeps standing on the item it stood on. */
    function InsertAt(p: nat, x: T): (r: Ring<T>)
      requires Valid() && p <= |items|
      ensures r.Valid()
    {
      Ring(Put(items, p, x), if p < index then index + 1 else index)
    }

    /** vListInsertEnd: links `x` in just before the item the index stands on. */
    function InsertEnd(x: T): (r: Ring<T>)
      requires Valid()
      ensures r.Valid()
    {
      InsertAt(if index == 0 then |items| else index - 1, x)
    }

    /** listGET_OWNER_OF_NEXT_ENTRY: steps the index, skipping the end marker. */
    function Next(): (r: Ring<T>)
      requires Valid() && items != []
      ensures r.Valid() && r.items == items && r.index > 0
    {
      this.(index := if index == |items| then 1 else index + 1)
    }

    /** The item the index stands on. */
    function Indexed(): T
      requires Valid() && index > 0
    {
      items[index - 1]
    }
  }

  /** `s` with `x` put in at position p, and `s` with position p taken out. */
  function Put<T>(s: seq<T>, p: nat, x: T): (r: seq<T>)
    requires p <= |s|
    ensures |r| == |s| + 1
  {
    s[..p] + [x] + s[p..]
  }

  function Drop<T>(s: seq<T>, p: nat): (r: seq<T>)
    requires p < |s|
    ensures |r| == |s| - 1
  {
    s[..p] + s[p + 1..]
  }

  ghost predicate Distinct<T>(s: seq<T>)
  {
    forall i, j :: 0 <= i < j < |s| ==> s[i] != s[j]
  }

  /** uxListRemove: unlinks `x`; an index standing on `x` steps back to its predecessor. */
  function Unlink<T(==)>(l: Ring<T>, x: T): (r: Ring<T>)
    requires l.Valid()
    ensures r.Valid()
  {
    WithoutConcat(l.items[..l.index], l.items[l.index..], x);
    assert l.items[..l.index] + l.items[l.index..] == l.items;
    Ring(Without(l.items, x), |Without(l.items[..l.index], x)|)
  }

  /** `s` with every occurrence of `x` taken out. */
  function Without<T(==)>(s: seq<T>, x: T): (r: seq<T>)
    ensures |r| <= |s|
    ensures forall y | y in r :: y in s && y != x
    ensures forall y | y in s :: y != x ==> y in r
  {
    if s == [] then [] else
      var rest := Without(s[1..], x);
      if s[0] == x then rest else [s[0]] + rest
  }

  /** Where vListInsert links an item of value `v` in: before the first larger value, hence after
      every equal one.  For v == MAX_DELAY that is always the end of the list. */
  function InsertPos(values: seq<Tick>, v: Tick): (p: nat)
    ensures p <= |values|
    ensures forall i :: 0 <= i < p ==> values[i] <= v
    ensures p < |values| ==> values[p] > v
  {
    if values == [] || values[0] > v then 0 else 1 + InsertPos(values[1..], v)
  }

  ghost predicate Sorted(values: seq<Tick>)
  {
    forall i, j :: 0 <= i < j < |values| ==> values[i] <= values[j]
  }

  // ---------- positions ----------

  lemma PutAt<T>(s: seq<T>, p: nat, x: T)
    requires p <= |s|
    ensures forall k :: 0 <= k <= |s| ==>
              Put(s, p, x)[k] == if k < p then s[k] else if k == p then x else s[k - 1]
  {
    assert Put(s, p, x) == s[..p] + [x] + s[p..];
  }

  lemma DropAt<T>(s: seq<T>, p: nat)
    requires p < |s|
    ensures forall k :: 0 <= k < |s| - 1 ==> Drop(s, p)[k] == if k < p then s[k] else s[k + 1]
  {
    assert Drop(s, p) == s[..p] + s[p + 1..];
  }

  lemma {:induction false} PutDistinct<T>(s: seq<T>, p: nat, x: T)
    requires p <= |s| && Distinct(s) && x !in s
    ensures Distinct(Put(s, p, x))
  {
    var r := Put(s, p, x);
    PutAt(s, p, x);
    forall i, j | 0 <= i < j < |r|
      ensures r[i] != r[j]
    {
      if i == p {
        assert r[j] == s[j - 1];
      } else if j == p {
        assert r[i] == s[i];
      } else {
        assert r[i] == s[if i < p then i else i - 1] && r[j] == s[if j < p then j else j - 1];
      }
    }
  }

  lemma {:induction false} DropDistinct<T>(s: seq<T>, p: nat)
    requires p < |s| && Distinct(s)
    ensures Distinct(Drop(s, p)) && s[p] !in Drop(s, p)
  {
    DropAt(s, p);
  }

  // ---------- rotation order ----------

  lemma WithoutConcat<T>(a: seq<T>, b: seq<T>, x: T)
    ensures Without(a + b, x) == Without(a, x) + Without(b, x)
  {
    if a == [] {
      assert a + b == b;
    } else {
      assert (a + b)[0] == a[0] && (a + b)[1..] == a[1..] + b;
      WithoutConcat(a[1..], b, x);
    }
  }

  lemma WithoutAbsent<T>(s: seq<T>, x: T)
    requires x !in s
    ensures Without(s, x) == s
  {
    if s != [] {
      WithoutAbsent(s[1..], x);
    }
  }

  lemma WithoutBag<T>(s: seq<T>, x: T)
    ensures multiset(Without(s, x)) == multiset(s)[x := 0]
  {
    if s != [] {
      WithoutBag(s[1..], x);
      assert s == [s[0]] + s[1..];
    }
  }

  /** Taking one next entry returns the head of the upcoming order and moves it to the back. */
  lemma {:induction false} NextRotates<T>(l: Ring<T>)
    requires l.Valid() && l.items != []
    ensures l.Next().Indexed() == l.Upcoming()[0]
    ensures l.Next().Upcoming() == l.Upcoming()[1..] + [l.Upcoming()[0]]
  {
    if l.index == |l.items| {
      assert l.Upcoming() == l.items;
    } else {
      assert l.items[l.index..] == [l.items[l.index]] + l.items[l.index + 1..];
      assert l.items[..l.index + 1] == l.items[..l.index] + [l.items[l.index]];
    }
  }

  /** `k` consecutive next entries: the items returned and the list afterwards. */
  function TakeNext<T>(l: Ring<T>, k: nat): (r: (seq<T>, Ring<T>))
    requires l.Valid() && (k > 0 ==> l.items != [])
    ensures r.1.Valid() && r.1.items == l.items && |r.0| == k
    decreases k
  {
    if k == 0 then ([], l) else
      var n := l.Next();
      var (taken, last) := TakeNext(n, k - 1);
      ([n.Indexed()] + taken, last)
  }

  lemma {:induction false} TakeNextIsPrefix<T>(l: Ring<T>, k: nat)
    requires l.Valid() && k <= |l.items|
    ensures TakeNext(l, k).0 == l.Upcoming()[..k]
    ensures TakeNext(l, k).1.Upcoming() == l.Upcoming()[k..] + l.Upcoming()[..k]
    decreases k
  {
    if k > 0 {
      NextRotates(l);
      TakeNextIsPrefix(l.Next(), k - 1);
      RotateSplit(l.Upcoming(), k);
    } else {
      assert l.Upcoming()[..0] == [] && l.Upcoming()[0..] + [] == l.Upcoming();
    }
  }

  lemma RotateSplit<T>(u: seq<T>, k: nat)
    requires 0 < k <= |u|
    ensures var r := u[1..] + [u[0]];
            u[..k] == [u[0]] + r[..k - 1] && u[k..] + u[..k] == r[k - 1..] + r[..k - 1]
  {
    var r := u[1..] + [u[0]];
    assert r[k - 1..] == u[k..] + [u[0]];
  }

  /** A full round of |items| next entries returns every item exactly once, in upcoming order, and
      leaves the upcoming order as it was. */
  lemma {:induction false} FullRound<T>(l: Ring<T>)
    requires l.Valid()
    ensures TakeNext(l, |l.items|).0 == l.Upcoming()
    ensures multiset(TakeNext(l, |l.items|).0) == multiset(l.items)
    ensures TakeNext(l, |l.items|).1.Upcoming() == l.Upcoming()
  {
    TakeNextIsPrefix(l, |l.items|);
    assert l.items == l.items[..l.index] + l.items[l.index..];
  }

  /** An item linked in at the end comes behind every item except the one the index stands on. */
  lemma {:induction false} InsertEndOrder<T>(l: Ring<T>, x: T)
    requires l.Valid()
    ensures l.index == 0 ==> l.InsertEnd(x).Upcoming() == l.Upcoming() + [x]
    ensures l.index > 0 ==>
              && l.Upcoming() == l.Upcoming()[..|l.items| - 1] + [l.Indexed()]
              && l.InsertEnd(x).Upcoming() == l.Upcoming()[..|l.items| - 1] + [x, l.Indexed()]
  {
    if l.index == 0 {
      assert l.items[..|l.items|] == l.items;
    } else {
      var i := l.index;
      var m := l.InsertEnd(x);
      assert l.items[..i] == l.items[..i - 1] + [l.items[i - 1]];
      assert m.items[m.index..] == l.items[i..];
      assert m.items[..m.index] == l.items[..i - 1] + [x, l.items[i - 1]];
      assert l.Upcoming()[..|l.items| - 1] == l.items[i..] + l.items[..i - 1];
    }
  }

  /** Unlinking any item, the indexed one included, takes it out of the upcoming order and changes
      nothing else. */
  lemma {:induction false} UnlinkOrder<T>(l: Ring<T>, x: T)
    requires l.Valid()
    ensures Unlink(l, x).Upcoming() == Without(l.Upcoming(), x)
  {
    var a, b := l.items[..l.index], l.items[l.index..];
    assert l.items == a + b;
    WithoutConcat(a, b, x);
    WithoutConcat(b, a, x);
  }

  /** Unlinking the item at position p of a list without duplicates. */
  lemma {:induction false} WithoutOne<T>(s: seq<T>, p: nat)
    requires p < |s| && Distinct(s)
    ensures Without(s, s[p]) == Drop(s, p)
  {
    var x := s[p];
    var a, b := s[..p], s[p + 1..];
    assert s == a + ([x] + b);
    WithoutConcat(a, [x] + b, x);
    WithoutConcat([x], b, x);
    WithoutAbsent(a, x);
    WithoutAbsent(b, x);
  }

  /** ... and what that does to the position of the roving index. */
  lemma {:induction false} UnlinkAt<T>(l: Ring<T>, p: nat)
    requires l.Valid() && p < |l.items| && Distinct(l.items)
    ensures Unlink(l, l.items[p]) ==
              Ring(Drop(l.items, p), if p < l.index then l.index - 1 else l.index)
  {
    var s, k := l.items, l.index;
    WithoutOne(s, p);
    if p < k {
      assert s[..k][p] == s[p];
      WithoutOne(s[..k], p);
    } else {
      WithoutAbsent(s[..k], s[p]);
    }
  }

  // ---------- sorted insertion ----------

  /** In a sorted list the insertion point splits the list into the values up to `v` and the values
      above it, and the list stays sorted: a stable sorted insertion, for every value. */
  lemma {:induction false} InsertPosStable(values: seq<Tick>, v: Tick)
    requires Sorted(values)
    ensures var p := InsertPos(values, v);
            && (forall i :: 0 <= i < |values| ==> (values[i] <= v <==> i < p))
            && Sorted(Put(values, p, v))
  {
    var p := InsertPos(values, v);
    var r := Put(values, p, v);
    PutAt(values, p, v);
    forall i, j | 0 <= i < j < |r| ensures r[i] <= r[j] {
      if j < p {
      } else if j == p {
      } else if i < p {
        assert r[j] == values[j - 1];
      } else if i == p {
        assert r[j] == values[j - 1];
      } else {
        assert r[i] == values[i - 1] && r[j] == values[j - 1];
      }
    }
  }
}
