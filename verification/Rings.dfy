/**
Rings of slots in an array, as the queues and buffers of this repository use them: positions,
stretches that may run past the end, and copies into the ring in up to two pieces.
*/
module Rings {
  /** A position that may have run past the end once. */
  function At(size: int, i: int): int {
    if i < size then i else i - size
  }

  /** n bytes of the ring from position `from`. */
  function Window<T>(data: seq<T>, from: int, n: int): (w: seq<T>)
    requires 0 <= from < |data| && 0 <= n <= |data|
    ensures |w| == n
  {
    seq(n, k requires 0 <= k < n => data[At(|data|, from + k)])
  }

  lemma WindowIndex<T>(data: seq<T>, from: int, n: int)
    requires 0 <= from < |data| && 0 <= n <= |data|
    ensures forall k :: 0 <= k < n ==> Window(data, from, n)[k] == data[At(|data|, from + k)]
  {
  }

  /** Two stretches that follow one another. */
  lemma WindowSplit<T>(data: seq<T>, from: int, m: int, n: int)
    requires 0 <= from < |data| && 0 <= m && 0 <= n && m + n <= |data| && m < |data|
    ensures Window(data, from, m + n) == Window(data, from, m) + Window(data, At(|data|, from + m), n)
  {
    WindowIndex(data, from, m + n);
    WindowIndex(data, from, m);
    WindowIndex(data, At(|data|, from + m), n);
  }

  /** A byte written outside a stretch leaves the stretch alone. */
  lemma PokeOutside<T>(data: seq<T>, from: int, n: int, k: int, b: T)
    requires 0 <= from < |data| && 0 <= n <= k < |data|
    ensures Window(data[At(|data|, from + k) := b], from, n) == Window(data, from, n)
  {
    WindowIndex(data, from, n);
    WindowIndex(data[At(|data|, from + k) := b], from, n);
  }

  /** The ring after bytes bs have been copied in from position `from`, in up to two pieces. */
  function CopiedIn<T>(data: seq<T>, from: int, bs: seq<T>): (d: seq<T>)
    requires 0 <= from < |data|
    ensures |d| == |data|
  {
    seq(|data|, i requires 0 <= i < |data| => var k := Offset(|data|, from, i); if 0 <= k < |bs| then bs[k] else data[i])
  }

  /** How far position i lies after `from`: the inverse of At. */
  function Offset(size: int, from: int, i: int): (k: int)
    requires 0 <= from < size && 0 <= i < size
    ensures 0 <= k < size && At(size, from + k) == i
  {
    if i >= from then i - from else i + size - from
  }

  lemma CopiedInWindow<T>(data: seq<T>, from: int, bs: seq<T>)
    requires 0 <= from < |data| && |bs| <= |data|
    ensures Window(CopiedIn(data, from, bs), from, |bs|) == bs
  {
    forall k | 0 <= k < |bs|
      ensures Window(CopiedIn(data, from, bs), from, |bs|)[k] == bs[k]
    {
      assert Offset(|data|, from, At(|data|, from + k)) == k;
    }
  }

  lemma CopiedInOutside<T>(data: seq<T>, tail: int, n: int, bs: seq<T>)
    requires 0 <= tail < |data| && 0 <= n < |data| && n + |bs| <= |data|
    ensures Window(CopiedIn(data, At(|data|, tail + n), bs), tail, n) == Window(data, tail, n)
  {
    var from := At(|data|, tail + n);
    forall k | 0 <= k < n
      ensures Window(CopiedIn(data, from, bs), tail, n)[k] == Window(data, tail, n)[k]
    {
      assert Offset(|data|, from, At(|data|, tail + k)) >= |bs|;
    }
  }

  /** Two copies that follow one another are one copy. */
  lemma CopiedInTwice<T>(data: seq<T>, from: int, a: seq<T>, b: seq<T>)
    requires 0 <= from < |data| && |a| + |b| < |data|
    ensures var next := At(|data|, from + |a|);
            0 <= next < |data| && CopiedIn(CopiedIn(data, from, a), next, b) == CopiedIn(data, from, a + b)
  {
    var next := At(|data|, from + |a|);
    var x, y := CopiedIn(CopiedIn(data, from, a), next, b), CopiedIn(data, from, a + b);
    forall i | 0 <= i < |data|
      ensures x[i] == y[i]
    {
      var k := Offset(|data|, from, i);
      if k < |a| {
        assert Offset(|data|, next, i) == k - |a| + |data|;
      } else {
        assert Offset(|data|, next, i) == k - |a|;
      }
    }
  }

  lemma CopiedInNothing<T>(data: seq<T>, from: int)
    requires 0 <= from < |data|
    ensures CopiedIn(data, from, []) == data
  {
  }
}
