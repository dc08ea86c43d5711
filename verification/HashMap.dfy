/**
A hash map of fixed capacity (src/common/tbox_hashmap.c): a buffer of nodes, a chain of nodes for
each bucket, and a queue of free nodes, all linked through one `next` pointer a node.  Nodes are
named by their number; NULL is the null pointer.  The map is proved to be a finite map of bounded
capacity.
*/
module HashMap {
  import opened Config
  import opened Lists

  type Key = int
  type Value = int

  const NULL := -1

  datatype Status = Ok | InvalidParam | NotFound | NoMemory | Failed

  /** tbox_hashmap_capacity_to_bucket_num(): every bucket has room, and no map is without a bucket. */
  function BucketNum(capacity: int): (b: int)
    ensures capacity > 0 ==> 0 < b <= capacity
  {
    if capacity <= 10 then capacity else if capacity <= 100 then 10 else (capacity + 9) / 10
  }

  function Bucket(hash: Key -> int, num: int, k: Key): (b: int)
    requires num > 0
    ensures 0 <= b < num
  {
    hash(k) % num
  }

  // ----- Chains

  /** Following the next pointers from h visits exactly the nodes of c, in order, and then stops. */
  ghost predicate Linked(next: seq<int>, h: int, c: seq<int>)
    decreases |c|
  {
    if c == [] then h == NULL
    else h == c[0] && 0 <= h < |next| && Linked(next, next[h], c[1..])
  }

  lemma {:induction false} LinkedFrame(next: seq<int>, next': seq<int>, h: int, c: seq<int>)
    requires Linked(next, h, c) && |next'| == |next|
    requires forall n :: n in c && 0 <= n < |next| ==> next'[n] == next[n]
    ensures Linked(next', h, c)
    decreases |c|
  {
    if c != [] {
      assert forall n :: n in c[1..] ==> n in c;
      LinkedFrame(next, next', next[h], c[1..]);
    }
  }

  /** The nodes of a chain are nodes. */
  lemma {:induction false} LinkedNodes(next: seq<int>, h: int, c: seq<int>)
    requires Linked(next, h, c)
    ensures forall n :: n in c ==> 0 <= n < |next|
    decreases |c|
  {
    if c != [] {
      LinkedNodes(next, next[h], c[1..]);
      assert forall n :: n in c ==> n == h || n in c[1..];
    }
  }

  /** A chain from position p on, and the pointer that leads to it. */
  lemma {:induction false} LinkedFrom(next: seq<int>, h: int, c: seq<int>, p: int)
    requires Linked(next, h, c) && 0 <= p <= |c|
    ensures p > 0 ==> 0 <= c[p - 1] < |next|
    ensures Linked(next, if p == 0 then h else next[c[p - 1]], c[p..])
    decreases |c|
  {
    if p == 0 {
      assert c[0..] == c;
    } else if p == 1 {
    } else {
      LinkedFrom(next, next[h], c[1..], p - 1);
      assert c[1..][p - 2] == c[p - 1] && c[1..][p - 1..] == c[p..];
    }
  }

  /** A node with no next goes behind the last node of a chain that does not have it. */
  lemma {:induction false} LinkedAppend(next: seq<int>, h: int, c: seq<int>, n: int)
    requires Linked(next, h, c) && Distinct(c) && n !in c && 0 <= n < |next| && next[n] == NULL
    requires c != []
    ensures 0 <= c[|c| - 1] < |next| && Linked(next[c[|c| - 1] := n], h, c + [n])
    decreases |c|
  {
    var rest := c[1..];
    assert (c + [n])[1..] == rest + [n];
    if rest == [] {
      var next' := next[h := n];
      assert rest + [n] == [n] && [n][1..] == [];
      assert Linked(next', n, [n]);
    } else {
      assert rest[|rest| - 1] == c[|c| - 1] && n !in rest;
      LinkedAppend(next, next[h], rest, n);
      assert rest[|rest| - 1] in rest;
    }
  }

  /** The node at position p > 0 is taken out: the pointer to it skips it. */
  lemma {:induction false} LinkedUnlink(next: seq<int>, h: int, c: seq<int>, p: int)
    requires Linked(next, h, c) && Distinct(c) && 0 < p < |c|
    ensures 0 <= c[p] < |next| && 0 <= c[p - 1] < |next|
    ensures Linked(next[c[p - 1] := next[c[p]]], h, c[..p] + c[p + 1..])
    decreases |c|
  {
    var rest := c[1..];
    assert (c[..p] + c[p + 1..])[1..] == rest[..p - 1] + rest[p..];
    assert rest[p - 1] == c[p] && c[p] in rest;
    if p == 1 {
      LinkedFrom(next, h, c, 1);
      var next' := next[h := next[c[1]]];
      assert rest[..0] + rest[1..] == rest[1..];
      assert forall n :: n in rest[1..] ==> n in rest;
      LinkedFrame(next, next', next[c[1]], rest[1..]);
    } else {
      LinkedUnlink(next, next[h], rest, p - 1);
      assert rest[p - 2] == c[p - 1] && c[p - 1] in rest;
    }
  }

  lemma {:induction false} LastIs(next: seq<int>, h: int, c: seq<int>, p: int)
    requires Linked(next, h, c) && 0 <= p < |c|
    ensures 0 <= c[p] < |next| && (next[c[p]] == NULL <==> p == |c| - 1)
  {
    LinkedFrom(next, h, c, p + 1);
    if p + 1 < |c| {
      var rest := c[p + 1..];
      assert rest[0] == next[c[p]];
    }
  }

  function Range(n: int): set<int>
    decreases n
  {
    if n <= 0 then {} else Range(n - 1) + {n - 1}
  }

  lemma {:induction false} RangeSize(n: int)
    requires n >= 0
    ensures |Range(n)| == n && forall i :: i in Range(n) <==> 0 <= i < n
  {
    if n > 0 {
      RangeSize(n - 1);
    }
  }

  /** No chain is longer than the capacity: the capacity-bounded loops reach the end of every chain. */
  lemma ChainBounded(next: seq<int>, h: int, c: seq<int>)
    requires Distinct(c) && Linked(next, h, c)
    ensures |c| <= |next|
  {
    RangeSize(|next|);
    LinkedNodes(next, h, c);
    forall n | n in c
      ensures n in Range(|next|)
    {
    }
    DistinctBounded(c, Range(|next|));
  }

  // ----- Places and contents

  /** A bucket's chain holds the nodes whose keys hash to the bucket, each once. */
  ghost predicate ChainIs(hash: Key -> int, num: int, keys: seq<Option<Key>>, b: int, c: seq<int>)
    requires num > 0
  {
    Distinct(c) &&
    forall n :: n in c <==> 0 <= n < |keys| && keys[n].Some? && Bucket(hash, num, keys[n].value) == b
  }

  ghost predicate AllLinked(next: seq<int>, buckets: seq<int>, chains: seq<seq<int>>) {
    |chains| == |buckets| && forall b :: 0 <= b < |chains| ==> Linked(next, buckets[b], chains[b])
  }

  ghost predicate AllPlaced(hash: Key -> int, keys: seq<Option<Key>>, chains: seq<seq<int>>) {
    |chains| > 0 && forall b :: 0 <= b < |chains| ==> ChainIs(hash, |chains|, keys, b, chains[b])
  }

  /** Chains are disjoint, so what happens within chain b leaves the others linked. */
  lemma OthersLinked(hash: Key -> int, keys: seq<Option<Key>>, next: seq<int>, next': seq<int>,
                     buckets: seq<int>, chains: seq<seq<int>>, b: int)
    requires AllLinked(next, buckets, chains) && AllPlaced(hash, keys, chains)
    requires 0 <= b < |chains| && |next'| == |next| == |keys|
    requires forall n :: 0 <= n < |next| && keys[n].Some? && n !in chains[b] ==> next'[n] == next[n]
    ensures forall a :: 0 <= a < |chains| && a != b ==> Linked(next', buckets[a], chains[a])
  {
    hide Bucket, Linked;
    forall a | 0 <= a < |chains| && a != b
      ensures Linked(next', buckets[a], chains[a])
    {
      assert ChainIs(hash, |chains|, keys, a, chains[a]) && ChainIs(hash, |chains|, keys, b, chains[b]);
      LinkedFrame(next, next', buckets[a], chains[a]);
    }
  }

  /** What happens to free nodes leaves every chain linked. */
  lemma AllStayLinked(hash: Key -> int, keys: seq<Option<Key>>, next: seq<int>, next': seq<int>,
                      buckets: seq<int>, chains: seq<seq<int>>)
    requires AllLinked(next, buckets, chains) && AllPlaced(hash, keys, chains) && |next'| == |next| == |keys|
    requires forall n :: 0 <= n < |next| && keys[n].Some? ==> next'[n] == next[n]
    ensures AllLinked(next', buckets, chains)
  {
    hide Bucket, Linked;
    forall a | 0 <= a < |chains|
      ensures Linked(next', buckets[a], chains[a])
    {
      assert ChainIs(hash, |chains|, keys, a, chains[a]);
      LinkedFrame(next, next', buckets[a], chains[a]);
    }
  }

  lemma AllPlacedAdded(hash: Key -> int, keys: seq<Option<Key>>, chains: seq<seq<int>>, n: int, k: Key)
    requires AllPlaced(hash, keys, chains) && 0 <= n < |keys| && keys[n].None?
    ensures var b := Bucket(hash, |chains|, k);
            n !in chains[b] && AllPlaced(hash, keys[n := Some(k)], chains[b := chains[b] + [n]])
  {
    hide Bucket, ChainIs;
    var b := Bucket(hash, |chains|, k);
    ChainAppended(hash, |chains|, keys, chains[b], n, k);
    forall a | 0 <= a < |chains| && a != b
      ensures ChainIs(hash, |chains|, keys[n := Some(k)], a, chains[a])
    {
      OtherChain(hash, |chains|, keys, a, chains[a], n, Some(k));
    }
  }

  lemma PlacedNode(hash: Key -> int, num: int, keys: seq<Option<Key>>, b: int, c: seq<int>, p: int)
    requires num > 0 && ChainIs(hash, num, keys, b, c) && 0 <= p < |c|
    ensures 0 <= c[p] < |keys| && keys[c[p]].Some? && Bucket(hash, num, keys[c[p]].value) == b
  {
    var x := c[p];
    assert x in c;
  }

  lemma AllPlacedCut(hash: Key -> int, keys: seq<Option<Key>>, chains: seq<seq<int>>, b: int, p: int)
    requires AllPlaced(hash, keys, chains) && 0 <= b < |chains| && 0 <= p < |chains[b]|
    ensures var c := chains[b];
            && 0 <= c[p] < |keys| && keys[c[p]].Some?
            && AllPlaced(hash, keys[c[p] := None], chains[b := c[..p] + c[p + 1..]])
  {
    hide Bucket, ChainIs;
    var c := chains[b];
    PlacedNode(hash, |chains|, keys, b, c, p);
    ChainCut(hash, |chains|, keys, b, c, p);
    forall a | 0 <= a < |chains| && a != b
      ensures ChainIs(hash, |chains|, keys[c[p] := None], a, chains[a])
    {
      OtherChain(hash, |chains|, keys, a, chains[a], c[p], None);
    }
  }

  /** The free queue holds the nodes without a key, each once. */
  ghost predicate FreeIs(keys: seq<Option<Key>>, free: seq<int>) {
    Distinct(free) && forall n :: n in free <==> 0 <= n < |keys| && keys[n].None?
  }

  ghost predicate HasKey(keys: seq<Option<Key>>, k: Key) {
    exists n :: 0 <= n < |keys| && keys[n] == Some(k)
  }

  /** The nodes with a key are the entries of the map, one node a key. */
  ghost predicate Represents(keys: seq<Option<Key>>, values: seq<Value>, contents: map<Key, Value>) {
    && |values| == |keys|
    && (forall n :: 0 <= n < |keys| && keys[n].Some? ==>
          keys[n].value in contents && contents[keys[n].value] == values[n])
    && (forall m, n :: 0 <= m < |keys| && 0 <= n < |keys| && keys[m].Some? && keys[m] == keys[n] ==> m == n)
    && (forall k :: k in contents ==> HasKey(keys, k))
  }

  lemma RepresentsAdded(keys: seq<Option<Key>>, values: seq<Value>, contents: map<Key, Value>, n: int, k: Key, v: Value)
    requires Represents(keys, values, contents) && 0 <= n < |keys| && keys[n].None? && k !in contents
    ensures Represents(keys[n := Some(k)], values[n := v], contents[k := v])
  {
    var keys' := keys[n := Some(k)];
    assert keys'[n] == Some(k);
    forall j | j in contents
      ensures HasKey(keys', j)
    {
      var m :| 0 <= m < |keys| && keys[m] == Some(j);
      assert keys'[m] == Some(j);
    }
  }

  lemma RepresentsUpdated(keys: seq<Option<Key>>, values: seq<Value>, contents: map<Key, Value>, n: int, v: Value)
    requires Represents(keys, values, contents) && 0 <= n < |keys| && keys[n].Some?
    ensures Represents(keys, values[n := v], contents[keys[n].value := v])
  {
  }

  lemma RepresentsRemoved(keys: seq<Option<Key>>, values: seq<Value>, contents: map<Key, Value>, n: int, v: Value)
    requires Represents(keys, values, contents) && 0 <= n < |keys| && keys[n].Some?
    ensures Represents(keys[n := None], values[n := v], contents - {keys[n].value})
  {
    var keys' := keys[n := None];
    forall j | j in contents - {keys[n].value}
      ensures HasKey(keys', j)
    {
      var m :| 0 <= m < |keys| && keys[m] == Some(j);
      assert keys'[m] == Some(j);
    }
  }

  lemma ChainAppended(hash: Key -> int, num: int, keys: seq<Option<Key>>, c: seq<int>, n: int, k: Key)
    requires num > 0 && 0 <= n < |keys| && keys[n].None? && ChainIs(hash, num, keys, Bucket(hash, num, k), c)
    ensures n !in c && ChainIs(hash, num, keys[n := Some(k)], Bucket(hash, num, k), c + [n])
  {
    DistinctIndices(c);
    DistinctIndices(c + [n]);
  }

  lemma OtherChain(hash: Key -> int, num: int, keys: seq<Option<Key>>, b: int, c: seq<int>, n: int, e: Option<Key>)
    requires num > 0 && 0 <= n < |keys| && ChainIs(hash, num, keys, b, c)
    requires keys[n].None? || Bucket(hash, num, keys[n].value) != b
    requires e.None? || Bucket(hash, num, e.value) != b
    ensures ChainIs(hash, num, keys[n := e], b, c) && n !in c
  {
    hide Bucket;
  }

  lemma ChainCut(hash: Key -> int, num: int, keys: seq<Option<Key>>, b: int, c: seq<int>, p: int)
    requires num > 0 && ChainIs(hash, num, keys, b, c) && 0 <= p < |c|
    ensures 0 <= c[p] < |keys| && ChainIs(hash, num, keys[c[p] := None], b, c[..p] + c[p + 1..])
  {
    hide Bucket;
    var x := c[p];
    assert x in c;
    var rest := c[..p] + c[p + 1..];
    DistinctIndices(c);
    DistinctIndices(rest);
    forall n | n in c && n != c[p]
      ensures n in rest
    {
      var i :| 0 <= i < |c| && c[i] == n;
      assert if i < p then rest[i] == n else rest[i - 1] == n;
    }
    assert forall n :: n in rest ==> n in c && n != x;
  }

  lemma FreePopped(keys: seq<Option<Key>>, free: seq<int>, k: Key)
    requires FreeIs(keys, free) && free != []
    ensures 0 <= free[0] < |keys| && FreeIs(keys[free[0] := Some(k)], free[1..])
  {
    var n := free[0];
    assert n in free;
    assert forall m :: m in free <==> m == n || m in free[1..];
  }

  lemma FreePushed(keys: seq<Option<Key>>, free: seq<int>, n: int)
    requires FreeIs(keys, free) && 0 <= n < |keys| && keys[n].Some?
    ensures n !in free && FreeIs(keys[n := None], free + [n])
  {
    DistinctIndices(free);
    DistinctIndices(free + [n]);
  }

  lemma NullIsEmpty(next: seq<int>, h: int, c: seq<int>)
    requires Linked(next, h, c)
    ensures h == NULL <==> c == []
  {
  }

  lemma FreeNodes(keys: seq<Option<Key>>, free: seq<int>)
    requires FreeIs(keys, free)
    ensures Distinct(free)
    ensures forall n :: n in free <==> 0 <= n < |keys| && keys[n].None?
    ensures free != [] ==> 0 <= free[0] < |keys| && keys[free[0]].None?
  {
    if free != [] {
      var x := free[0];
      assert x in free;
    }
  }

  lemma FreshFree(keys: seq<Option<Key>>, free: seq<int>)
    requires |free| == |keys| && Distinct(free) && forall i :: 0 <= i < |free| ==> free[i] == i && keys[i].None?
    ensures FreeIs(keys, free)
  {
    forall n | 0 <= n < |keys|
      ensures n in free
    {
      assert free[n] == n;
    }
  }

  lemma FreshChains(hash: Key -> int, keys: seq<Option<Key>>, next: seq<int>, buckets: seq<int>, chains: seq<seq<int>>)
    requires |chains| == |buckets| > 0 && forall n :: 0 <= n < |keys| ==> keys[n].None?
    requires forall b :: 0 <= b < |chains| ==> chains[b] == [] && buckets[b] == NULL
    ensures AllLinked(next, buckets, chains) && AllPlaced(hash, keys, chains)
  {
  }

  lemma EntryOf(keys: seq<Option<Key>>, values: seq<Value>, contents: map<Key, Value>, n: int)
    requires Represents(keys, values, contents) && 0 <= n < |keys| && keys[n].Some?
    ensures keys[n].value in contents && contents[keys[n].value] == values[n]
    ensures |contents - {keys[n].value}| == |contents| - 1
  {
    var rest := contents - {keys[n].value};
    assert rest.Keys == contents.Keys - {keys[n].value};
  }

  lemma BucketIs(hash: Key -> int, num: int, k: Key)
    requires num > 0
    ensures Bucket(hash, num, k) == hash(k) % num
  {
  }

  /** A free node goes to the end of chain b; the other chains stay linked. */
  lemma ChainGrown(hash: Key -> int, keys: seq<Option<Key>>, next: seq<int>, buckets: seq<int>,
                   chains: seq<seq<int>>, b: int, n: int)
    requires AllLinked(next, buckets, chains) && AllPlaced(hash, keys, chains) && |next| == |keys|
    requires 0 <= b < |chains| && 0 <= n < |keys| && keys[n].None? && next[n] == NULL
    ensures |chains| == |buckets| && (buckets[b] == NULL <==> chains[b] == [])
    ensures chains[b] == [] ==> AllLinked(next, buckets[b := n], chains[b := [n]])
    ensures chains[b] != [] ==>
              var last := chains[b][|chains[b]| - 1];
              && 0 <= last < |keys| && keys[last].Some?
              && AllLinked(next[last := n], buckets, chains[b := chains[b] + [n]])
  {
    hide Bucket, Linked;
    var c := chains[b];
    NullIsEmpty(next, buckets[b], c);
    assert ChainIs(hash, |chains|, keys, b, c);
    if c == [] {
      SingleLinked(next, n);
    } else {
      var last := c[|c| - 1];
      assert last in c;
      LinkedAppend(next, buckets[b], c, n);
      OthersLinked(hash, keys, next, next[last := n], buckets, chains, b);
    }
  }

  /** The node at position p leaves chain b; the other chains stay linked. */
  lemma ChainShrunk(hash: Key -> int, keys: seq<Option<Key>>, next: seq<int>, buckets: seq<int>,
                    chains: seq<seq<int>>, b: int, p: int)
    requires AllLinked(next, buckets, chains) && AllPlaced(hash, keys, chains) && |next| == |keys|
    requires 0 <= b < |chains| && 0 <= p < |chains[b]|
    ensures |chains| == |buckets| && 0 <= chains[b][p] < |keys| && keys[chains[b][p]].Some?
    ensures buckets[b] == chains[b][p] <==> p == 0
    ensures var c := chains[b];
            var rest := chains[b := c[..p] + c[p + 1..]];
            if p == 0 then AllLinked(next, buckets[b := next[c[p]]], rest)
            else 0 <= c[p - 1] < |keys| && AllLinked(next[c[p - 1] := next[c[p]]], buckets, rest)
  {
    hide Bucket, Linked;
    var c := chains[b];
    assert ChainIs(hash, |chains|, keys, b, c);
    PlacedNode(hash, |chains|, keys, b, c, p);
    HeadIs(next, buckets[b], c);
    DistinctIndices(c);
    if p == 0 {
      LinkedFrom(next, buckets[b], c, 1);
      assert c[..0] + c[1..] == c[1..];
    } else {
      LinkedUnlink(next, buckets[b], c, p);
      OthersLinked(hash, keys, next, next[c[p - 1] := next[c[p]]], buckets, chains, b);
    }
  }

  lemma HeadIs(next: seq<int>, h: int, c: seq<int>)
    requires Linked(next, h, c) && c != []
    ensures h == c[0]
  {
  }

  lemma SingleLinked(next: seq<int>, n: int)
    requires 0 <= n < |next| && next[n] == NULL
    ensures Linked(next, n, [n])
  {
    assert [n][1..] == [];
  }

  // ----- Repeated tbox_hashmap_remove_one()

  /** ks is the order in which repeated removals took the entries of m, until none was left. */
  ghost predicate Drains(m: map<Key, Value>, ks: seq<Key>) {
    if ks == [] then m == map[] else ks[0] in m && Drains(m - {ks[0]}, ks[1..])
  }

  /** However the entries come out, each comes out exactly once. */
  lemma {:induction false} DrainedOnce(m: map<Key, Value>, ks: seq<Key>)
    requires Drains(m, ks)
    ensures Distinct(ks) && |ks| == |m| && forall k :: k in ks <==> k in m
  {
    if ks != [] {
      var rest := m - {ks[0]};
      DrainedOnce(rest, ks[1..]);
      assert rest.Keys == m.Keys - {ks[0]};
      assert forall k :: k in ks <==> k == ks[0] || k in ks[1..];
    }
  }

  // ----- The map itself

  class HashMap {
    const capacity: int
    const hash: Key -> int
    var keys: seq<Option<Key>>
    var next: seq<int>
    var values: seq<Value>
    var buckets: seq<int>
    var freeHead: int
    var freeTail: int
    var count: int

    ghost var chains: seq<seq<int>>
    ghost var free: seq<int>
    ghost var contents: map<Key, Value>

    ghost predicate Shape()
      reads this
    {
      && capacity > 0 && |keys| == capacity && |next| == capacity && |values| == capacity
      && |buckets| == BucketNum(capacity) && |chains| == |buckets|
    }

    ghost predicate FreeLinked()
      reads this
    {
      Linked(next, freeHead, free) && freeTail == if free == [] then NULL else free[|free| - 1]
    }

    ghost predicate Valid()
      reads this
    {
      && Shape() && AllLinked(next, buckets, chains) && AllPlaced(hash, keys, chains)
      && FreeLinked() && FreeIs(keys, free) && Represents(keys, values, contents)
      && count == |contents| && count + |free| == capacity
    }

    /** tbox_hashmap_create(): every node is free and every chain empty. */
    constructor (capacity: int, hash: Key -> int)
      requires capacity > 0
      ensures Valid() && contents == map[] && this.capacity == capacity && this.hash == hash
    {
      this.capacity, this.hash := capacity, hash;
      keys := seq(capacity, n => None);
      next := seq(capacity, n => NULL);
      values := seq(capacity, n => 0);
      buckets := seq(BucketNum(capacity), b => NULL);
      freeHead, freeTail, count := NULL, NULL, 0;
      chains := seq(BucketNum(capacity), b => []);
      free, contents := [], map[];
      new;
      FillFree();
      FreshFree(keys, free);
      FreshChains(hash, keys, next, buckets, chains);
    }

    method FillFree()
      requires free == [] && FreeLinked()
      modifies this`next, this`freeHead, this`freeTail, this`free
      ensures FreeLinked() && |next| == old(|next|) == |free| && Distinct(free)
      ensures forall i :: 0 <= i < |free| ==> free[i] == i
    {
      var n := 0;
      while n < |next|
        invariant 0 <= n <= |next| && FreeLinked() && |free| == n && |next| == old(|next|)
        invariant Distinct(free) && forall i :: 0 <= i < n ==> free[i] == i
      {
        Push(n);
        DistinctIndices(free);
        n := n + 1;
      }
    }

    /** tbox_hashmap_queue_push() on a node that is in no chain. */
    method Push(n: int)
      requires 0 <= n < |next| && FreeLinked() && Distinct(free) && n !in free
      modifies this`next, this`freeHead, this`freeTail, this`free
      ensures FreeLinked() && free == old(free) + [n] && |next| == old(|next|)
      ensures forall m :: 0 <= m < |next| && m != n && m !in old(free) ==> next[m] == old(next[m])
    {
      ghost var was := free;
      next := next[n := NULL];
      LinkedFrame(old(next), next, freeHead, free);
      free := free + [n];
      if freeHead == NULL {
        assert was == [];
        freeHead := n;
        freeTail := n;
      } else {
        assert was != [];
        var x := was[|was| - 1];
        assert x in was;
        LinkedAppend(next, freeHead, was, n);
        next := next[freeTail := n];
        freeTail := n;
      }
    }

    /** tbox_hashmap_queue_pop() */
    method Pop() returns (n: int)
      requires FreeLinked() && Distinct(free)
      modifies this`next, this`freeHead, this`freeTail, this`free
      ensures FreeLinked() && |next| == old(|next|)
      ensures old(free) == [] ==> n == NULL && free == [] && next == old(next)
      ensures old(free) != [] ==>
                && n == old(free[0]) && free == old(free[1..])
                && 0 <= n < |next| && next == old(next)[n := NULL]
    {
      if freeHead == NULL {
        return NULL;
      }
      n := freeHead;
      assert n == free[0];
      ghost var rest := free[1..];
      assert Linked(next, next[n], rest);
      if next[freeHead] == NULL {
        assert rest == [];
        freeHead := NULL;
        freeTail := NULL;
      } else {
        assert rest != [] && rest[|rest| - 1] == free[|free| - 1];
        freeHead := next[n];
      }
      free := rest;
      next := next[n := NULL];
      LinkedFrame(old(next), next, freeHead, free);
    }

    /** tbox_hashmap_find_node(): the node that has the key, and where its chain has it. */
    method FindNode(k: Key) returns (n: int, ghost p: int)
      requires Valid()
      ensures n == NULL <==> k !in contents
      ensures n != NULL ==> 0 <= n < capacity && keys[n] == Some(k) && contents[k] == values[n]
      ensures n != NULL ==>
                var c := chains[Bucket(hash, |buckets|, k)]; 0 <= p < |c| && c[p] == n
    {
      var b := hash(k) % BucketNum(capacity);
      ghost var c := chains[b];
      n, p := buckets[b], 0;
      ChainBounded(next, n, c);
      assert c[0..] == c;
      var i := 0;
      while i < capacity && n != NULL
        invariant 0 <= i <= |c| && p == i && Linked(next, n, c[i..])
        invariant forall j :: 0 <= j < i ==> 0 <= c[j] < capacity && keys[c[j]] != Some(k)
      {
        assert n == c[i] && n in c;
        if keys[n] == Some(k) {
          return;
        }
        assert c[i..][1..] == c[i + 1..];
        n, i, p := next[n], i + 1, p + 1;
      }
      assert i == |c|;
      n := NULL;
      if k in contents {
        EntryInChain(k);
        assert false;
      }
    }

    /** An entry's node is in the chain of its bucket. */
    lemma EntryInChain(k: Key)
      requires Valid() && k in contents
      ensures var c := chains[Bucket(hash, |buckets|, k)];
              exists j :: 0 <= j < |c| && 0 <= c[j] < capacity && keys[c[j]] == Some(k)
    {
      assert HasKey(keys, k);
      var n :| 0 <= n < |keys| && keys[n] == Some(k);
      assert n in chains[Bucket(hash, |buckets|, k)];
    }

    /** tbox_hashmap_get() */
    method Get(key: Option<Key>) returns (status: Status, value: Value)
      requires Valid()
      ensures status == if key.None? then InvalidParam else if key.value in contents then Ok else NotFound
      ensures status == Ok ==> value == contents[key.value]
    {
      value := 0;
      if key.None? {
        return InvalidParam, value;
      }
      var n, p := FindNode(key.value);
      if n == NULL {
        return NotFound, value;
      }
      return Ok, values[n];
    }

    /** The walk to the last node of a chain that is not empty. */
    method FindLast(b: int) returns (prev: int)
      requires Shape() && AllLinked(next, buckets, chains) && AllPlaced(hash, keys, chains)
      requires 0 <= b < |buckets| && chains[b] != []
      ensures prev == chains[b][|chains[b]| - 1]
    {
      hide Bucket, BucketNum;
      ghost var c := chains[b];
      assert ChainIs(hash, |chains|, keys, b, c);
      ChainBounded(next, buckets[b], c);
      prev := buckets[b];
      var i := 0;
      while i < capacity
        invariant 0 <= i < |c| && prev == c[i]
      {
        LastIs(next, buckets[b], c, i);
        if next[prev] == NULL {
          return;
        }
        LinkedFrom(next, buckets[b], c, i + 1);
        prev, i := next[prev], i + 1;
      }
      assert false;
    }

    /** A node goes to the end of the chain of bucket b. */
    method AppendToChain(b: int, n: int)
      requires Shape() && AllLinked(next, buckets, chains) && AllPlaced(hash, keys, chains)
      requires 0 <= b < |buckets| && 0 <= n < |keys| && keys[n].None? && next[n] == NULL
      modifies this`next, this`buckets, this`chains
      ensures |chains| == |old(chains)| && chains == old(chains)[b := old(chains)[b] + [n]]
      ensures |next| == old(|next|) && |buckets| == old(|buckets|) && AllLinked(next, buckets, chains)
      ensures forall m :: 0 <= m < |next| && keys[m].None? ==> next[m] == old(next[m])
    {
      hide Linked, ChainIs, Bucket, BucketNum, AllLinked, AllPlaced;
      ChainGrown(hash, keys, next, buckets, chains, b, n);
      if buckets[b] == NULL {
        buckets := buckets[b := n];
        chains := chains[b := [n]];
        assert [] + [n] == [n];
      } else {
        var prev := FindLast(b);
        next := next[prev := n];
        chains := chains[b := chains[b] + [n]];
      }
    }

    /** tbox_hashmap_put() for a key that is not there, with a node to spare. */
    method AddEntry(k: Key, v: Value)
      requires Valid() && k !in contents && free != []
      modifies this
      ensures Valid() && contents == old(contents)[k := v]
    {
      hide Represents, Linked, ChainIs, FreeIs, Bucket, BucketNum, AllLinked, AllPlaced;
      FreePopped(keys, free, k);
      FreeNodes(keys, free);
      var n := Pop();
      AllStayLinked(hash, keys, old(next), next, buckets, chains);
      var b := hash(k) % BucketNum(capacity);
      BucketIs(hash, |chains|, k);
      AllPlacedAdded(hash, keys, chains, n, k);
      RepresentsAdded(keys, values, contents, n, k, v);
      label L:
      AppendToChain(b, n);
      FreeNodes(keys[n := Some(k)], free);
      LinkedFrame(old@L(next), next, freeHead, free);
      keys := keys[n := Some(k)];
      values := values[n := v];
      contents := contents[k := v];
      count := count + 1;
    }

    /** tbox_hashmap_put() */
    method Put(key: Option<Key>, value: Option<Value>) returns (status: Status)
      requires Valid()
      modifies this
      ensures Valid()
      ensures status == if key.None? || value.None? then InvalidParam
                        else if key.value in old(contents) || |old(contents)| < capacity then Ok
                        else NoMemory
      ensures contents == if status == Ok then old(contents)[key.value := value.value] else old(contents)
    {
      hide Linked, ChainIs, FreeIs, Represents, AllLinked, AllPlaced, BucketNum, Bucket;
      if key.None? || value.None? {
        return InvalidParam;
      }
      var n, p := FindNode(key.value);
      NullIsEmpty(next, freeHead, free);
      if n == NULL {
        if freeHead == NULL && freeTail == NULL {
          return NoMemory;
        }
        AddEntry(key.value, value.value);
      } else {
        RepresentsUpdated(keys, values, contents, n, value.value);
        values := values[n := value.value];
        contents := contents[key.value := value.value];
      }
      return Ok;
    }

    /** The walk to the node before the one at position p > 0 of its chain. */
    method FindBefore(b: int, n: int, ghost p: int) returns (prev: int)
      requires Shape() && AllLinked(next, buckets, chains) && AllPlaced(hash, keys, chains)
      requires 0 <= b < |buckets| && 0 < p < |chains[b]| && n == chains[b][p]
      ensures prev == chains[b][p - 1]
    {
      hide Bucket, BucketNum;
      ghost var c := chains[b];
      assert ChainIs(hash, |chains|, keys, b, c);
      ChainBounded(next, buckets[b], c);
      DistinctIndices(c);
      prev := buckets[b];
      var i := 0;
      while i < capacity && prev != NULL
        invariant 0 <= i < p && prev == c[i]
      {
        LinkedFrom(next, buckets[b], c, i + 1);
        if next[prev] == n {
          return;
        }
        prev, i := next[prev], i + 1;
      }
      LastIs(next, buckets[b], c, i);
      assert false;
    }

    /** The node at position p of chain b is taken out of the chain. */
    method Unlink(b: int, n: int, ghost p: int)
      requires Shape() && AllLinked(next, buckets, chains) && AllPlaced(hash, keys, chains)
      requires 0 <= b < |buckets| && 0 <= p < |chains[b]| && n == chains[b][p]
      modifies this`next, this`buckets, this`chains
      ensures 0 <= n < |keys| && keys[n].Some?
      ensures |chains| == |old(chains)| && chains == old(chains)[b := old(chains[b])[..p] + old(chains[b])[p + 1..]]
      ensures |next| == old(|next|) && |buckets| == old(|buckets|) && AllLinked(next, buckets, chains)
      ensures forall m :: 0 <= m < |next| && keys[m].None? ==> next[m] == old(next[m])
      ensures AllPlaced(hash, keys[n := None], chains)
    {
      hide Linked, ChainIs, Bucket, BucketNum, AllLinked;
      ghost var c := chains[b];
      ChainShrunk(hash, keys, next, buckets, chains, b, p);
      AllPlacedCut(hash, keys, chains, b, p);
      if n == buckets[b] {
        buckets := buckets[b := next[n]];
      } else {
        PlacedNode(hash, |chains|, keys, b, c, p - 1);
        var prev := FindBefore(b, n, p);
        next := next[prev := next[n]];
      }
      chains := chains[b := c[..p] + c[p + 1..]];
    }

    /** A node that no chain has any more loses its key and value and joins the free queue. */
    method Release(n: int)
      requires Shape() && 0 <= n < |keys| && keys[n].Some?
      requires AllLinked(next, buckets, chains) && AllPlaced(hash, keys[n := None], chains)
      requires FreeLinked() && FreeIs(keys, free) && Represents(keys, values, contents)
      requires count == |contents| && count + |free| == capacity
      modifies this
      ensures old(keys)[n].value in old(contents) && contents == old(contents) - {old(keys)[n].value}
      ensures Valid()
    {
      hide Linked, ChainIs, FreeIs, Represents, AllLinked, AllPlaced, Bucket, BucketNum;
      FreeNodes(keys, free);
      EntryOf(keys, values, contents, n);
      RepresentsRemoved(keys, values, contents, n, 0);
      FreePushed(keys, free, n);
      contents := contents - {keys[n].value};
      keys := keys[n := None];
      values := values[n := 0];
      label L:
      Push(n);
      AllStayLinked(hash, keys, old@L(next), next, buckets, chains);
      count := count - 1;
    }

    /** The entry at position p of chain b is dropped and its node freed. */
    method RemoveAt(b: int, n: int, ghost p: int)
      requires Valid() && 0 <= b < |buckets| && 0 <= p < |chains[b]| && n == chains[b][p]
      modifies this
      ensures 0 <= n < |old(keys)| && old(keys)[n].Some? && Valid()
      ensures old(keys)[n].value in old(contents) && contents == old(contents) - {old(keys)[n].value}
    {
      hide Linked, ChainIs, FreeIs, Represents, AllLinked, AllPlaced, Bucket, BucketNum;
      FreeNodes(keys, free);
      Unlink(b, n, p);
      LinkedFrame(old(next), next, freeHead, free);
      Release(n);
    }

    /** tbox_hashmap_remove() */
    method Remove(key: Option<Key>)
      requires Valid()
      modifies this
      ensures Valid()
      ensures contents == if key.None? then old(contents) else old(contents) - {key.value}
    {
      hide Linked, ChainIs, FreeIs, Represents, AllLinked, AllPlaced, Bucket, BucketNum, FreeLinked;
      if key.None? {
        return;
      }
      var n, p := FindNode(key.value);
      if n == NULL {
        return;
      }
      var b := hash(key.value) % BucketNum(capacity);
      BucketIs(hash, |buckets|, key.value);
      RemoveAt(b, n, p);
    }

    /** tbox_hashmap_remove_one(): `key` is the key of the entry that was taken. */
    method RemoveOne() returns (status: Status, value: Value, ghost key: Key)
      requires Valid()
      modifies this
      ensures Valid() && status == if old(contents) == map[] then Failed else Ok
      ensures status == Failed ==> contents == old(contents)
      ensures status == Ok ==>
                key in old(contents) && value == old(contents)[key] && contents == old(contents) - {key}
    {
      hide Linked, ChainIs, FreeIs, Represents, AllPlaced, Bucket, FreeLinked;
      value, key := 0, 0;
      var i := 0;
      while i < BucketNum(capacity)
        invariant Valid() && contents == old(contents) && 0 <= i <= |chains|
        invariant forall b :: 0 <= b < i ==> chains[b] == []
      {
        var n := buckets[i];
        NullIsEmpty(next, n, chains[i]);
        if n != NULL {
          HeadIs(next, n, chains[i]);
          HeadEntry(i);
          value, key := values[n], keys[n].value;
          RemoveAt(i, n, 0);
          return Ok, value, key;
        }
        i := i + 1;
      }
      NothingIn();
      return Failed, value, key;
    }

    lemma HeadEntry(b: int)
      requires Valid() && 0 <= b < |chains| && chains[b] != []
      ensures var n := chains[b][0];
              && 0 <= n < |keys| && keys[n].Some?
              && keys[n].value in contents && contents[keys[n].value] == values[n]
    {
      hide Linked, FreeIs, FreeLinked, Bucket, BucketNum, AllLinked;
      PlacedNode(hash, |chains|, keys, b, chains[b], 0);
    }

    /** A map whose chains are all empty is empty. */
    lemma NothingIn()
      requires Valid() && forall b :: 0 <= b < |chains| ==> chains[b] == []
      ensures contents == map[]
    {
      forall k | k in contents
        ensures false
      {
        EntryInChain(k);
      }
    }
  }

  /** tbox_hashmap_create(), given a buffer that is large enough. */
  method Create(capacity: int, hash: Key -> int) returns (map': HashMap?)
    requires capacity >= 0
    ensures capacity == 0 <==> map' == null
    ensures map' != null ==>
              fresh(map') && map'.Valid() && map'.contents == map[] && map'.capacity == capacity && map'.hash == hash
  {
    if capacity == 0 {
      return null;
    }
    map' := new HashMap(capacity, hash);
  }

  /**
  tbox_hashmap_remove_one(), again and again until it fails: the values it returns are those of
  the map, one for each key.
  */
  method RemoveAll(m: HashMap) returns (values: seq<Value>, ghost ks: seq<Key>)
    requires m.Valid()
    modifies m
    ensures m.Valid() && m.contents == map[]
    ensures Distinct(ks) && |ks| == |values| == |old(m.contents)| && forall k :: k in ks <==> k in old(m.contents)
    ensures forall i :: 0 <= i < |ks| ==> ks[i] in old(m.contents) && values[i] == old(m.contents)[ks[i]]
  {
    ghost var was := m.contents;
    values, ks := [], [];
    var status := Ok;
    NoneTaken(was);
    hide Taken;
    while status == Ok
      invariant m.Valid() && Taken(was, m.contents, ks, values)
      invariant status == Ok || m.contents == map[]
      decreases |m.contents|, status == Ok
    {
      ghost var before := m.contents;
      var value;
      ghost var k;
      status, value, k := m.RemoveOne();
      if status == Ok {
        OneTaken(was, before, ks, values, k, value);
        values, ks := values + [value], ks + [k];
      }
    }
    AllTaken(was, ks, values);
  }

  /** The entries of was with keys ks, in that order, are gone, and their values were these. */
  ghost predicate Taken(was: map<Key, Value>, left: map<Key, Value>, ks: seq<Key>, values: seq<Value>) {
    && |ks| == |values|
    && (forall k :: k in left ==> k in was && left[k] == was[k])
    && (forall i :: 0 <= i < |ks| ==> ks[i] in was && values[i] == was[ks[i]])
    && forall later :: Drains(left, later) ==> Drains(was, ks + later)
  }

  lemma NoneTaken(was: map<Key, Value>)
    ensures Taken(was, was, [], [])
  {
    assert forall later: seq<Key> :: [] + later == later;
  }

  lemma OneTaken(was: map<Key, Value>, left: map<Key, Value>, ks: seq<Key>, values: seq<Value>, k: Key, v: Value)
    requires Taken(was, left, ks, values) && k in left && left[k] == v
    ensures Taken(was, left - {k}, ks + [k], values + [v]) && |left - {k}| < |left|
  {
    assert (left - {k}).Keys == left.Keys - {k};
    forall later | Drains(left - {k}, later)
      ensures Drains(was, ks + [k] + later)
    {
      DrainsOn(left, k, later);
      assert ks + [k] + later == ks + ([k] + later);
    }
  }

  lemma AllTaken(was: map<Key, Value>, ks: seq<Key>, values: seq<Value>)
    requires Taken(was, map[], ks, values)
    ensures Distinct(ks) && |ks| == |values| == |was| && forall k :: k in ks <==> k in was
    ensures forall i :: 0 <= i < |ks| ==> ks[i] in was && values[i] == was[ks[i]]
  {
    assert Drains(map[], []) && ks + [] == ks;
    DrainedOnce(was, ks);
  }

  lemma DrainsOn(m: map<Key, Value>, k: Key, later: seq<Key>)
    requires k in m && Drains(m - {k}, later)
    ensures Drains(m, [k] + later)
  {
    assert ([k] + later)[1..] == later;
  }
}
