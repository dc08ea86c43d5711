/**
The kernel's intrusive doubly linked list (rtos/source/list.c).

`Ring` is what the list means: its items in walk order from the end marker, and the position
of the walk index. `KernelList` is the pointer structure itself; each operation on the
pointers is proved to perform the operation of the same name on the ring.
*/
module Lists {
  import opened Config

  /** `idx == 0` means pxIndex is the end marker, otherwise pxIndex is `items[idx - 1]`. */
  datatype Ring<T(==)> = Ring(items: seq<T>, idx: nat) {

    ghost predicate Valid() {
      idx <= |items| && Distinct(items)
    }

    /** The items in the order listGET_OWNER_OF_NEXT_ENTRY() will return them. */
    function Walk(): seq<T>
      requires idx <= |items|
    {
      items[idx..] + items[..idx]
    }

    /** Where vListInsertEnd() puts a new item: just before pxIndex. */
    function EndPos(): (k: nat)
      ensures idx <= |items| ==> k <= |items|
    {
      if idx == 0 then |items| else idx - 1
    }

    function InsertAt(k: nat, x: T): Ring<T>
      requires k <= |items|
    {
      Ring(Splice(items, k, x), if k < idx then idx + 1 else idx)
    }

    function InsertEnd(x: T): Ring<T>
      requires idx <= |items|
    {
      InsertAt(EndPos(), x)
    }

    function RemoveAt(k: nat): Ring<T>
      requires k < |items|
    {
      Ring(items[..k] + items[k + 1..], if k < idx then idx - 1 else idx)
    }

    /** listGET_OWNER_OF_NEXT_ENTRY(): step pxIndex, skipping the end marker. */
    function Next(): Ring<T>
      requires items != [] && idx <= |items|
    {
      this.(idx := if idx == |items| then 1 else idx + 1)
    }

    function Current(): T
      requires 0 < idx <= |items|
    {
      items[idx - 1]
    }

    function Nexts(n: nat): (r: Ring<T>)
      requires items != [] && idx <= |items|
      ensures r.items == items && r.idx <= |items|
    {
      if n == 0 then this else Nexts(n - 1).Next()
    }
  }

  function Splice<T>(s: seq<T>, k: nat, x: T): seq<T>
    requires k <= |s|
  {
    s[..k] + [x] + s[k..]
  }

  function EmptyRing<T>(): Ring<T> {
    Ring([], 0)
  }

  function PositionOf<T(==)>(s: seq<T>, x: T): (k: nat)
    requires x in s
    ensures k < |s| && s[k] == x
    ensures x !in s[..k]
  {
    if s[0] == x then 0 else 1 + PositionOf(s[1..], x)
  }

  /** Removing an item wherever it is: uxListRemove(). */
  function Without<T(==)>(r: Ring<T>, x: T): Ring<T>
    requires x in r.items
  {
    r.RemoveAt(PositionOf(r.items, x))
  }

  /** x taken out, if it is there. */
  function Dropped<T(==)>(s: seq<T>, x: T): seq<T> {
    if x in s then s[..PositionOf(s, x)] + s[PositionOf(s, x) + 1..] else s
  }

  lemma PositionIs<T>(s: seq<T>, x: T, k: nat)
    requires Distinct(s) && k < |s| && s[k] == x
    ensures x in s && PositionOf(s, x) == k
  {
    DistinctIndices(s);
  }

  lemma WithoutMembers<T>(r: Ring<T>, x: T)
    requires r.Valid() && x in r.items
    ensures Without(r, x).Valid()
    ensures forall y :: y in Without(r, x).items <==> y in r.items && y != x
  {
    var k := PositionOf(r.items, x);
    var r' := r.RemoveAt(k);
    DistinctIndices(r.items);
    DistinctIndices(r'.items);
    forall y | y in r.items && y != x
      ensures y in r'.items
    {
      var i :| 0 <= i < |r.items| && r.items[i] == y;
      assert if i < k then r'.items[i] == y else r'.items[i - 1] == y;
    }
  }

  lemma InsertMembers<T>(r: Ring<T>, k: nat, x: T)
    requires r.Valid() && x !in r.items && k <= |r.items|
    ensures r.InsertAt(k, x).Valid()
    ensures forall y :: y in r.InsertAt(k, x).items <==> y in r.items || y == x
  {
    var r' := r.InsertAt(k, x);
    DistinctIndices(r.items);
    DistinctIndices(r'.items);
    forall i, j | 0 <= i < j < |r'.items|
      ensures r'.items[i] != r'.items[j]
    {
      assert i < k ==> r'.items[i] == r.items[i];
      assert i > k ==> r'.items[i] == r.items[i - 1];
      assert j < k ==> r'.items[j] == r.items[j];
      assert j > k ==> r'.items[j] == r.items[j - 1];
    }
    forall y | y in r.items
      ensures y in r'.items
    {
      var i :| 0 <= i < |r.items| && r.items[i] == y;
      assert if i < k then r'.items[i] == y else r'.items[i + 1] == y;
    }
  }

  lemma DroppedMembers<T>(q: seq<T>, t: T)
    requires Distinct(q)
    ensures Distinct(Dropped(q, t))
    ensures forall y :: y in Dropped(q, t) <==> y in q && y != t
  {
    if t in q {
      WithoutMembers(Ring(q, 0), t);
      assert Without(Ring(q, 0), t).items == Dropped(q, t);
    }
  }

  lemma {:induction false} DistinctBounded<T>(s: seq<T>, all: set<T>)
    requires Distinct(s) && forall t :: t in s ==> t in all
    ensures |s| <= |all|
  {
    if s != [] {
      var x := s[0];
      assert x in s && x in all;
      forall t | t in s[1..]
        ensures t in all - {x}
      {
        assert t in s;
      }
      DistinctBounded(s[1..], all - {x});
    }
  }

  // ----- What the walk does

  /** A new item is returned after every item already there, save the one at pxIndex. */
  lemma InsertEndIsLastInWalk<T>(r: Ring<T>, x: T)
    requires r.idx <= |r.items|
    ensures var w := r.Walk();
            r.InsertEnd(x).Walk() == if r.idx == 0 then w + [x] else w[..|w| - 1] + [x, w[|w| - 1]]
  {
    var k := r.EndPos();
    var r' := r.InsertEnd(x);
    if r.idx != 0 {
      assert r'.items[r'.idx..] == r.items[r.idx..];
      assert r'.items[..r'.idx] == r.items[..k] + [x] + [r.items[k]];
      assert r.items[..r.idx] == r.items[..k] + [r.items[k]];
    }
  }

  /** A new item is returned last exactly if the walk index is at the end marker. */
  lemma InsertEndIsLast<T>(r: Ring<T>, x: T)
    requires r.Valid() && x !in r.items
    ensures var w := r.InsertEnd(x).Walk(); w[|w| - 1] == x <==> r.idx == 0
  {
    InsertEndIsLastInWalk(r, x);
    if r.idx != 0 {
      assert r.Walk()[|r.items| - 1] == r.items[r.idx - 1];
    }
  }

  /**
  When the item at the index is removed, the item before it is where the index is: items that are
  added then are returned before it, although it was returned before the one that was removed.
  */
  lemma NewcomerOvertakes<T>(r: Ring<T>, x: T)
    requires r.Valid() && r.idx >= 2 && x !in r.items
    ensures var left := r.RemoveAt(r.idx - 1);
            && left.idx <= |left.items|
            && var w := left.InsertEnd(x).Walk();
               |w| >= 2 && w[|w| - 2..] == [x, r.items[r.idx - 2]]
  {
    var left := r.RemoveAt(r.idx - 1);
    InsertEndIsLastInWalk(left, x);
    assert left.Walk()[|left.items| - 1] == r.items[r.idx - 2];
  }

  /** Removal deletes that item from the walk and leaves the order of all others alone. */
  lemma RemoveFromWalk<T>(r: Ring<T>, k: nat)
    requires r.idx <= |r.items| && k < |r.items|
    ensures r.RemoveAt(k).idx <= |r.RemoveAt(k).items|
    ensures var w := r.Walk();
            var j := if k < r.idx then |r.items| - r.idx + k else k - r.idx;
            w[j] == r.items[k] && r.RemoveAt(k).Walk() == w[..j] + w[j + 1..]
  {
    var r' := r.RemoveAt(k);
    if k < r.idx {
      assert r'.items[r'.idx..] == r.items[r.idx..];
      assert r'.items[..r'.idx] == r.items[..k] + r.items[k + 1..r.idx];
    } else {
      assert r'.items[r'.idx..] == r.items[r.idx..k] + r.items[k + 1..];
      assert r'.items[..r'.idx] == r.items[..r.idx];
    }
  }

  /** One step returns the first item of the walk and puts it last. */
  lemma NextIsFirstInWalk<T>(r: Ring<T>)
    requires r.items != [] && r.idx <= |r.items|
    ensures 0 < r.Next().idx <= |r.items|
    ensures r.Next().Current() == r.Walk()[0]
    ensures r.Next().Walk() == r.Walk()[1..] + [r.Walk()[0]]
  {
  }

  lemma {:induction false} NextsIndex<T>(r: Ring<T>, n: nat)
    requires r.items != [] && r.idx <= |r.items| && 1 <= n <= |r.items|
    ensures r.Nexts(n).idx == if r.idx + n <= |r.items| then r.idx + n else r.idx + n - |r.items|
  {
    if n > 1 {
      NextsIndex(r, n - 1);
    } else {
      assert r.Nexts(1) == r.Nexts(0).Next();
    }
  }

  /**
  Equal shares: while the list does not change, the n-th step (n = 1, 2, ...) returns the n-th
  item of the walk, and after one step per item the walk starts over in the same order.
  */
  lemma RoundRobin<T>(r: Ring<T>, n: nat)
    requires r.items != [] && r.idx <= |r.items| && 1 <= n <= |r.items|
    ensures 0 < r.Nexts(n).idx <= |r.Nexts(n).items|
    ensures r.Nexts(n).Current() == r.Walk()[n - 1]
    ensures r.Nexts(|r.items|).Walk() == r.Walk()
  {
    NextsIndex(r, n);
    NextsIndex(r, |r.items|);
  }

  // ----- Sorted insertion

  /** Where vListInsert() stops: before the first item whose value is larger. */
  function InsertPos(vals: seq<int>, v: int): (k: nat)
    ensures k <= |vals|
  {
    if vals == [] || vals[0] > v then 0 else 1 + InsertPos(vals[1..], v)
  }

  ghost predicate Sorted(vals: seq<int>) {
    forall i, j :: 0 <= i < j < |vals| ==> vals[i] <= vals[j]
  }

  /** Sorted order is kept and the new value comes after all equal values. */
  lemma InsertKeepsSorted(vals: seq<int>, v: int)
    requires Sorted(vals)
    ensures var k := InsertPos(vals, v);
            && Sorted(Splice(vals, k, v))
            && forall i :: k <= i < |vals| ==> v < vals[i]
  {
    var k := InsertPos(vals, v);
    InsertPosUnique(vals, v, k);
    forall i | k <= i < |vals|
      ensures v < vals[i]
    {
      assert vals[k] <= vals[i];
    }
    SpliceSorted(vals, v, k);
  }

  lemma SpliceSorted(vals: seq<int>, v: int, k: nat)
    requires Sorted(vals) && k <= |vals|
    requires (forall i :: 0 <= i < k ==> vals[i] <= v) && forall i :: k <= i < |vals| ==> v <= vals[i]
    ensures Sorted(Splice(vals, k, v))
  {
    var w := Splice(vals, k, v);
    forall i, j | 0 <= i < j < |w|
      ensures w[i] <= w[j]
    {
      assert i < k ==> w[i] == vals[i];
      assert i > k ==> w[i] == vals[i - 1];
      assert j < k ==> w[j] == vals[j];
      assert j > k ==> w[j] == vals[j - 1];
    }
  }

  /** It is the only position with no larger value before it and a larger value, or the end, at it. */
  lemma {:induction false} InsertPosUnique(vals: seq<int>, v: int, k: nat)
    requires k <= |vals|
    ensures k == InsertPos(vals, v) <==>
            (forall i :: 0 <= i < k ==> vals[i] <= v) && (k < |vals| ==> vals[k] > v)
  {
    if vals != [] {
      if k > 0 {
        var rest := vals[1..];
        InsertPosUnique(rest, v, k - 1);
        assert (forall i :: 0 <= i < k ==> vals[i] <= v) <==>
               vals[0] <= v && forall i :: 0 <= i < k - 1 ==> rest[i] <= v by {
          assert forall i :: 0 <= i < k - 1 ==> rest[i] == vals[i + 1];
          assert forall i :: 0 < i < k ==> vals[i] == rest[i - 1];
        }
      }
    }
  }

  // ----- The pointer structure

  class ListItem {
    var itemValue: int
    var next: ListItem?
    var prev: ListItem?
    var container: KernelList?

    constructor (v: int)
      ensures itemValue == v && container == null
    {
      itemValue, next, prev, container := v, null, null, null;
    }
  }

  /** Each node of n points forward and back at its neighbours in n. */
  ghost predicate Chain(n: seq<ListItem>)
    reads n`next, n`prev
  {
    && (forall i {:trigger n[i].next} :: 0 <= i < |n| - 1 ==> n[i].next == n[i + 1])
    && (forall i {:trigger n[i].prev} :: 0 < i < |n| ==> n[i].prev == n[i - 1])
  }

  /** One trip round the list, from the end marker to the end marker. */
  ghost function Trip<T>(end: T, items: seq<T>): seq<T> {
    [end] + items + [end]
  }

  /** No node is met twice between the two visits to the end marker. */
  ghost predicate ClosedTrip<T>(n: seq<T>) {
    |n| >= 2 && n[0] == n[|n| - 1] && Distinct(n[1..])
  }

  lemma TripIsClosed<T>(end: T, s: seq<T>)
    requires Distinct(s) && end !in s
    ensures ClosedTrip(Trip(end, s))
  {
    var n := Trip(end, s);
    assert n[1..] == s + [end];
    DistinctIndices(s);
    DistinctIndices(s + [end]);
  }

  lemma TripInsert<T>(end: T, r: Ring<T>, k: nat, x: T)
    requires r.Valid() && end !in r.items && x !in r.items && x != end && k <= |r.items|
    ensures var r', n := r.InsertAt(k, x), Trip(end, r.items);
            && r'.Valid() && end !in r'.items
            && (forall y :: y in r'.items <==> y in r.items || y == x)
            && Trip(end, r'.items) == Splice(n, k + 1, x)
            && Trip(end, r'.items)[r'.idx] == n[r.idx]
  {
    var r', n := r.InsertAt(k, x), Trip(end, r.items);
    assert n[..k + 1] == [end] + r.items[..k];
    assert n[k + 1..] == r.items[k..] + [end];
    DistinctIndices(r.items);
    DistinctIndices(r'.items);
    forall i, j | 0 <= i < j < |r'.items|
      ensures r'.items[i] != r'.items[j]
    {
      assert i < k ==> r'.items[i] == r.items[i];
      assert i > k ==> r'.items[i] == r.items[i - 1];
      assert j < k ==> r'.items[j] == r.items[j];
      assert j > k ==> r'.items[j] == r.items[j - 1];
    }
  }

  lemma TripRemove<T>(end: T, r: Ring<T>, k: nat)
    requires r.Valid() && end !in r.items && k < |r.items|
    ensures var r', n := r.RemoveAt(k), Trip(end, r.items);
            && r'.Valid() && end !in r'.items
            && (n[r.idx] == n[k + 1] <==> r.idx == k + 1)
            && (forall y :: y in r'.items ==> y in r.items && y != r.items[k])
            && Trip(end, r'.items) == n[..k + 1] + n[k + 2..]
            && Trip(end, r'.items)[r'.idx] == if r.idx == k + 1 then n[k] else n[r.idx]
  {
    var r', n := r.RemoveAt(k), Trip(end, r.items);
    assert n[..k + 1] == [end] + r.items[..k];
    assert n[k + 2..] == r.items[k + 1..] + [end];
    DistinctIndices(r.items);
    DistinctIndices(r'.items);
  }

  /** The four assignments that link x between its neighbours n[k] and n[k + 1]. */
  method Link(x: ListItem, before: ListItem, after: ListItem, ghost n: seq<ListItem>, ghost k: nat)
    requires Chain(n) && ClosedTrip(n) && k < |n| - 1 && x !in n
    requires before == n[k] && after == n[k + 1]
    modifies x`next, x`prev, before`next, after`prev
    ensures Chain(Splice(n, k + 1, x))
  {
    x.next := after;
    x.prev := before;
    before.next := x;
    after.prev := x;
    ghost var m, d := Splice(n, k + 1, x), n[1..];
    DistinctIndices(d);
    forall i {:trigger m[i].next} | 0 <= i < |m| - 1
      ensures m[i].next == m[i + 1]
    {
      if i < k {
        assert k > 0 ==> d[k - 1] == n[k] && (i > 0 ==> d[i - 1] == n[i]) && (i == 0 ==> d[|d| - 1] == n[i]);
      } else if i > k + 1 {
        assert d[i - 2] == n[i - 1] && (k > 0 ==> d[k - 1] == n[k]) && (k == 0 ==> d[|d| - 1] == n[k]);
      }
    }
    forall i {:trigger m[i].prev} | 0 < i < |m|
      ensures m[i].prev == m[i - 1]
    {
      if i <= k {
        assert d[k] == n[k + 1] && d[i - 1] == n[i];
      } else if i > k + 2 {
        assert d[k] == n[k + 1] && d[i - 2] == n[i - 1];
      }
    }
  }

  /** The two assignments that unlink n[k]. */
  method Unlink(x: ListItem, before: ListItem, after: ListItem, ghost n: seq<ListItem>, ghost k: nat)
    requires Chain(n) && ClosedTrip(n) && 0 < k < |n| - 1 && x == n[k]
    requires before == n[k - 1] && after == n[k + 1]
    modifies before`next, after`prev
    ensures Chain(n[..k] + n[k + 1..])
  {
    after.prev := before;
    before.next := after;
    ghost var m, d := n[..k] + n[k + 1..], n[1..];
    DistinctIndices(d);
    forall i {:trigger m[i].next} | 0 <= i < |m| - 1
      ensures m[i].next == m[i + 1]
    {
      if i < k - 1 {
        assert d[k - 2] == n[k - 1] && (i > 0 ==> d[i - 1] == n[i]) && (i == 0 ==> d[|d| - 1] == n[i]);
      } else if i >= k {
        assert d[i] == n[i + 1] && (k > 1 ==> d[k - 2] == n[k - 1]) && (k == 1 ==> d[|d| - 1] == n[k - 1]);
      }
    }
    forall i {:trigger m[i].prev} | 0 < i < |m|
      ensures m[i].prev == m[i - 1]
    {
      if i < k {
        assert d[k] == n[k + 1] && d[i - 1] == n[i];
      } else if i > k {
        assert d[k] == n[k + 1] && d[i] == n[i + 1];
      }
    }
  }

  ghost predicate HasValues(s: seq<ListItem>, vals: seq<int>)
    reads s`itemValue
  {
    && |vals| == |s|
    && forall i {:trigger s[i]} {:trigger vals[i]} :: 0 <= i < |s| ==> s[i].itemValue == vals[i] && 0 <= vals[i] <= MAX_DELAY
  }

  lemma HasValuesInsert(s: seq<ListItem>, vals: seq<int>, k: nat, x: ListItem)
    requires HasValues(s, vals) && k <= |s| && 0 <= x.itemValue <= MAX_DELAY
    ensures HasValues(Splice(s, k, x), Splice(vals, k, x.itemValue))
  {
  }

  lemma HasValuesRemove(s: seq<ListItem>, vals: seq<int>, k: nat)
    requires HasValues(s, vals) && k < |s|
    ensures HasValues(s[..k] + s[k + 1..], vals[..k] + vals[k + 1..])
  {
  }

  class KernelList {
    var numberOfItems: nat
    var index: ListItem
    const end: ListItem
    ghost var ring: Ring<ListItem>
    ghost var vals: seq<int>  // the item values, in the order of ring.items

    ghost predicate Valid()
      reads this, end, ring.items
    {
      ValidBut(index)
    }

    /** The list would be valid if pxIndex were i. */
    ghost predicate ValidBut(i: ListItem)
      reads this, end, ring.items
    {
      && numberOfItems == |ring.items|
      && ring.Valid()
      && end !in ring.items
      && i == Trip(end, ring.items)[ring.idx]
      && Chain(Trip(end, ring.items))
      && end.itemValue == MAX_DELAY
      && (forall x :: x in ring.items ==> x.container == this)
      && HasValues(ring.items, vals)
    }

    /** vListInitialise() */
    constructor ()
      ensures Valid() && ring == EmptyRing() && vals == [] && fresh(end)
    {
      end := new ListItem(MAX_DELAY);
      index := end;
      numberOfItems := 0;
      ring, vals := EmptyRing(), [];
      new;
      end.next := end;
      end.prev := end;
      assert Trip(end, ring.items) == [end, end];
    }

    /** How both insertions end: link x behind `before`, record its container, count it. */
    method Attach(x: ListItem, before: ListItem, after: ListItem, ghost k: nat)
      requires Valid() && x !in ring.items && x != end && 0 <= x.itemValue <= MAX_DELAY
      requires k <= |ring.items| && before == Trip(end, ring.items)[k] && after == Trip(end, ring.items)[k + 1]
      modifies this, end, ring.items, x
      ensures Valid() && ring == old(ring).InsertAt(k, x)
      ensures vals == Splice(old(vals), k, old(x.itemValue))
    {
      ghost var n := Trip(end, ring.items);
      TripIsClosed(end, ring.items);
      TripInsert(end, ring, k, x);
      x.container := this;
      HasValuesInsert(ring.items, vals, k, x);
      ring, vals := ring.InsertAt(k, x), Splice(vals, k, x.itemValue);
      numberOfItems := numberOfItems + 1;
      Link(x, before, after, n, k);
    }

    /** vListInsertEnd() */
    method InsertEnd(x: ListItem)
      requires Valid() && x !in ring.items && x != end && 0 <= x.itemValue <= MAX_DELAY
      modifies this, end, ring.items, x
      ensures Valid() && ring == old(ring).InsertEnd(x)
      ensures vals == Splice(old(vals), old(ring).EndPos(), old(x.itemValue))
    {
      ghost var k := ring.EndPos();
      assert Trip(end, ring.items)[k + 1] == index;
      Attach(x, index.prev, index, k);
    }

    /** vListInsert() */
    method Insert(x: ListItem)
      requires Valid() && x !in ring.items && x != end && 0 <= x.itemValue <= MAX_DELAY
      modifies this, end, ring.items, x
      ensures Valid()
      ensures var k := InsertPos(old(vals), old(x.itemValue));
              ring == old(ring).InsertAt(k, x) && vals == Splice(old(vals), k, old(x.itemValue))
    {
      var it := FindPlace(x.itemValue);
      Attach(x, it, it.next, InsertPos(vals, x.itemValue));
    }

    /**
    The search of vListInsert(): portMAX_DELAY goes straight to the back; for any other value
    the end marker's value stops the iterator loop.
    */
    method FindPlace(v: int) returns (it: ListItem)
      requires Valid() && 0 <= v <= MAX_DELAY
      ensures var k := InsertPos(vals, v);
              it == Trip(end, ring.items)[k] && it.next == Trip(end, ring.items)[k + 1]
    {
      ghost var n, k := Trip(end, ring.items), 0;
      if v == MAX_DELAY {
        k := |vals|;
        assert n[k + 1] == end;
        it := end.prev;
      } else {
        it := end;
        while it.next.itemValue <= v
          invariant 0 <= k <= |vals| && it == n[k] && it.next == n[k + 1]
          invariant forall i :: 0 <= i < k ==> vals[i] <= v
          decreases |vals| - k
        {
          it := it.next;
          k := k + 1;
        }
      }
      assert it.next == n[k + 1];
      InsertPosUnique(vals, v, k);
    }

    /** Unlink x, forget its container, count it out; pxIndex may be left pointing at x. */
    method Detach(x: ListItem, before: ListItem, after: ListItem, ghost k: nat)
      requires Valid() && k < |ring.items| && ring.items[k] == x
      requires before == Trip(end, ring.items)[k] && after == Trip(end, ring.items)[k + 2]
      modifies this`numberOfItems, this`ring, this`vals, end`next, end`prev, ring.items`next, ring.items`prev, x`container
      ensures ring == old(ring).RemoveAt(k) && vals == old(vals)[..k] + old(vals)[k + 1..]
      ensures x.container == null
      ensures index == x <==> old(ring).idx == k + 1
      ensures ValidBut(if index == x then before else index)
    {
      ghost var n := Trip(end, ring.items);
      TripIsClosed(end, ring.items);
      TripRemove(end, ring, k);
      assert n[k + 1] == x;
      x.container := null;
      HasValuesRemove(ring.items, vals, k);
      ring, vals := ring.RemoveAt(k), vals[..k] + vals[k + 1..];
      numberOfItems := numberOfItems - 1;
      Unlink(x, before, after, n, k + 1);
    }

    /** uxListRemove(), called through the container of the item. */
    method Remove(x: ListItem) returns (left: nat)
      requires Valid() && x in ring.items
      modifies this, end, ring.items
      ensures Valid() && ring == Without(old(ring), x)
      ensures var k := PositionOf(old(ring.items), x); vals == old(vals)[..k] + old(vals)[k + 1..]
      ensures x.container == null && left == numberOfItems
    {
      ghost var k := PositionOf(ring.items, x);
      assert Trip(end, ring.items)[k + 1] == x;
      var before := x.prev;
      Detach(x, before, x.next, k);
      if index == x {
        index := before;
      }
      left := numberOfItems;
    }

  }
}
