/**
A byte queue with free-running counters (src/common/cqueue.c): `in` and `out` only ever grow, as
32-bit numbers that wrap, and positions in the buffer are their low bits.
*/
module CQueue {
  import opened Config
  import opened Rings

  type Byte = int

  const COUNTER_MODULUS := 0x1_0000_0000

  // ----- Masks and powers of two

  function Pow2(k: nat): (p: int)
    ensures p >= 1
  {
    if k == 0 then 1 else 2 * Pow2(k - 1)
  }

  /** The & of C on non-negative numbers. */
  function BitAnd(a: int, b: int): int
    decreases a
  {
    if a <= 0 || b <= 0 then 0 else (a % 2) * (b % 2) + 2 * BitAnd(a / 2, b / 2)
  }

  /** Masking with a power of two less one is the remainder modulo that power. */
  lemma {:induction false} MaskIsModulus(a: int, k: nat)
    requires a >= 0
    ensures BitAnd(a, Pow2(k) - 1) == a % Pow2(k)
    decreases k
  {
    if k > 0 {
      var p := Pow2(k - 1);
      MaskIsModulus(a / 2, k - 1);
      assert (2 * p - 1) % 2 == 1 && (2 * p - 1) / 2 == p - 1;
      HalfModulus(a, p);
      if p == 1 && a > 0 {
        assert BitAnd(a / 2, 0) == 0;
      }
    }
  }

  lemma HalfModulus(a: int, p: int)
    requires a >= 0 && p >= 1
    ensures a % (2 * p) == a % 2 + 2 * ((a / 2) % p)
  {
    var q, r := (a / 2) / p, (a / 2) % p;
    assert a / 2 == q * p + r;
    assert a == q * (2 * p) + (2 * r + a % 2);
    RemainderUnique(a, 2 * p, q, 2 * r + a % 2);
  }

  lemma RemainderUnique(a: int, b: int, q: int, r: int)
    requires b > 0 && a == q * b + r && 0 <= r < b
    ensures a % b == r && a / b == q
  {
    assert (q + 1) * b == q * b + b;
    QuotientUnique(a, b, q);
  }

  /** align_to_power(): the largest power of two not above val. */
  method AlignToPower(val: int) returns (power: int, ghost k: nat)
    requires 0 < val < COUNTER_MODULUS
    ensures power == Pow2(k) && k <= 31 && power <= val < 2 * power
  {
    power := 0x8000_0000;
    k := 31;
    TopPower();
    while power > val
      invariant k <= 31 && power == Pow2(k) && val < 2 * power
      decreases power
    {
      power := power / 2;
      k := k - 1;
    }
  }

  lemma TopPower()
    ensures Pow2(31) == 0x8000_0000
  {
    assert Pow2(8) == 256;
    assert Pow2(16) == 0x1_0000;
    assert Pow2(24) == 0x100_0000;
  }

  // ----- Counters that wrap

  /** A counter after n more, as a 32-bit number. */
  function Wrapped(n: int): int {
    n % COUNTER_MODULUS
  }

  /** The low bits of a counter are those of what it counts. */
  lemma LowBitsSurvive(n: int, k: nat)
    requires n >= 0 && k <= 31
    ensures Wrapped(n) % Pow2(k) == n % Pow2(k)
  {
    PowsMultiply(32 - k, k);
    TopPower();
    assert Pow2(32) == COUNTER_MODULUS;
    RemainderOfRemainder(n, Pow2(32 - k), Pow2(k));
  }

  lemma RemainderOfRemainder(n: int, c: int, p: int)
    requires n >= 0 && c > 0 && p > 0 && c * p > 0
    ensures (n % (c * p)) % p == n % p
  {
    var q, r := n / (c * p), n % (c * p);
    var s, t := r / p, r % p;
    assert n == q * (c * p) + r && r == s * p + t;
    Distribute(q, c, s, p);
    RemainderUnique(n, p, q * c + s, t);
  }

  lemma Distribute(q: int, c: int, s: int, p: int)
    ensures (q * c + s) * p == q * (c * p) + s * p
  {
  }

  lemma {:induction false} PowsMultiply(a: nat, b: nat)
    ensures Pow2(a) * Pow2(b) == Pow2(a + b)
  {
    if a > 0 {
      PowsMultiply(a - 1, b);
      assert 2 * Pow2(a - 1) * Pow2(b) == 2 * (Pow2(a - 1) * Pow2(b));
    }
  }

  /** The position after u more slots. */
  lemma PositionAfter(n: int, u: int, size: int)
    requires n >= 0 && size > 0 && 0 <= u <= size
    ensures (n + u) % size == At(size, n % size + u)
  {
    var q, r := n / size, n % size;
    assert n == q * size + r;
    if r + u < size {
      RemainderUnique(n + u, size, q, r + u);
    } else {
      assert n + u == (q + 1) * size + (r + u - size);
      if r + u - size < size {
        RemainderUnique(n + u, size, q + 1, r + u - size);
      }
    }
  }

  /** Differences of counters are right however often each has wrapped. */
  lemma DifferenceShows(out: int, in_: int)
    requires 0 <= in_ - out < COUNTER_MODULUS
    ensures Wrapped(Wrapped(in_) - Wrapped(out)) == in_ - out
  {
  }

  lemma SurplusShows(out: int, in_: int, size: int)
    requires 0 <= size - (in_ - out) < COUNTER_MODULUS
    ensures Wrapped(size - Wrapped(in_) + Wrapped(out)) == size - (in_ - out)
  {
  }

  lemma AddedShows(n: int, k: int)
    ensures Wrapped(Wrapped(n) + k) == Wrapped(n + k)
  {
  }

  /** What masking a counter gives. */
  lemma PositionShows(n: int, k: nat)
    requires n >= 0 && k <= 31
    ensures BitAnd(Wrapped(n), Pow2(k) - 1) == n % Pow2(k)
  {
    MaskIsModulus(Wrapped(n), k);
    LowBitsSurvive(n, k);
  }

  lemma SmallSize(k: nat)
    requires k <= 31
    ensures Pow2(k) <= 0x8000_0000
  {
    PowsMultiply(31 - k, k);
    TopPower();
    hide Pow2;
    MulMonotone(1, Pow2(31 - k), Pow2(k));
  }

  // ----- The code

  /** cqueue_init(): no queue in an empty buffer. */
  method Create(buffer: array<Byte>) returns (queue: ByteQueue?)
    requires buffer.Length < COUNTER_MODULUS
    ensures queue == null <==> buffer.Length == 0
    ensures queue != null ==>
              && fresh(queue) && queue.Valid() && queue.buffer == buffer && queue.Items() == []
              && queue.size <= buffer.Length < 2 * queue.size
  {
    if buffer.Length == 0 {
      return null;
    }
    queue := new ByteQueue(buffer);
  }

  class ByteQueue {
    const buffer: array<Byte>
    const size: int
    var inCount: int
    var outCount: int
    ghost const k: nat       // size is two to the k
    ghost var put: int       // bytes put in and taken out since the start
    ghost var taken: int

    ghost predicate Valid()
      reads this
    {
      && k <= 31 && size == Pow2(k) && size <= buffer.Length
      && 0 <= taken <= put <= taken + size
      && inCount == Wrapped(put) && outCount == Wrapped(taken)
    }

    /** The bytes in the queue. */
    ghost function Items(): (s: seq<Byte>)
      requires Valid()
      reads this, buffer
    {
      Window(buffer[..size], taken % size, put - taken)
    }

    /** The queue in a buffer that is not empty. */
    constructor (buffer: array<Byte>)
      requires 0 < buffer.Length < COUNTER_MODULUS
      ensures Valid() && this.buffer == buffer && Items() == []
      ensures size <= buffer.Length < 2 * size
    {
      var power, j := AlignToPower(buffer.Length);
      this.buffer, size, k := buffer, power, j;
      inCount, outCount, put, taken := 0, 0, 0, 0;
    }

    /** cqueue_datalen() */
    method DataLen() returns (n: int)
      requires Valid()
      ensures n == |Items()|
    {
      SmallSize(k);
      DifferenceShows(taken, put);
      n := Wrapped(inCount - outCount);
    }

    /** cqueue_surplus() */
    method Surplus() returns (n: int)
      requires Valid()
      ensures n == size - |Items()|
    {
      SmallSize(k);
      SurplusShows(taken, put, size);
      n := Wrapped(size - inCount + outCount);
    }

    /** cqueue_put(): as many bytes as there is room for. */
    method Put(data: seq<Byte>) returns (n: int)
      requires Valid()
      modifies this`inCount, this`put, buffer
      ensures Valid()
      ensures n == (if |data| < size - |old(Items())| then |data| else size - |old(Items())|)
      ensures Items() == old(Items()) + data[..n]
    {
      hide Wrapped, BitAnd, Pow2, Window, CopiedIn;
      var room := Surplus();
      n := if |data| < room then |data| else room;
      ghost var used, was := put - taken, buffer[..size];
      PositionShows(put, k);
      PositionAfter(taken, used, size);
      var at := BitAnd(inCount, size - 1);
      CopyIn(at, data[..n]);
      Appended(was, taken % size, used, data[..n]);
      AddedShows(put, n);
      inCount := Wrapped(inCount + n);
      put := put + n;
    }

    /** The two memcpy() calls of cqueue_put(). */
    method CopyIn(at: int, data: seq<Byte>)
      requires 0 <= at < size <= buffer.Length && |data| <= size
      modifies buffer
      ensures buffer[..size] == CopiedIn(old(buffer[..size]), at, data)
    {
      var first := if |data| < size - at then |data| else size - at;
      forall i | 0 <= i < first {
        buffer[at + i] := data[i];
      }
      forall i | 0 <= i < |data| - first {
        buffer[i] := data[first + i];
      }
    }

    /** cqueue_read(): the bytes stay in the queue. */
    method Read(len: int) returns (data: seq<Byte>)
      requires Valid() && len >= 0
      ensures data == Items()[..if len < |Items()| then len else |Items()|]
    {
      hide Wrapped, BitAnd, Pow2, Window;
      var used := DataLen();
      var n := if len < used then len else used;
      PositionShows(taken, k);
      var at := BitAnd(outCount, size - 1);
      assert at == taken % size;
      var first := if n < size - at then n else size - at;
      data := buffer[at..at + first] + buffer[..n - first];
      ghost var bytes := buffer[..size];
      assert buffer[at..at + first] == bytes[at..at + first] && buffer[..n - first] == bytes[..n - first];
      ReadInTwo(bytes, at, used, n);
    }

    /** cqueue_discard() */
    method Discard(len: int) returns (n: int)
      requires Valid() && len >= 0
      modifies this`outCount, this`taken
      ensures Valid()
      ensures n == (if len < |old(Items())| then len else |old(Items())|)
      ensures Items() == old(Items())[n..]
    {
      var used := DataLen();
      n := if len < used then len else used;
      AddedShows(taken, n);
      Dropped(buffer[..size], taken, used, n, size);
      hide Wrapped, Pow2;
      outCount := Wrapped(outCount + n);
      taken := taken + n;
    }

    /** cqueue_get(): the first bytes leave the queue, in the order they were put in. */
    method Get(len: int) returns (data: seq<Byte>)
      requires Valid() && len >= 0
      modifies this`outCount, this`taken
      ensures Valid()
      ensures old(Items()) == data + Items()
      ensures |data| == if len < |old(Items())| then len else |old(Items())|
    {
      data := Read(len);
      var _ := Discard(len);
    }
  }

  /** Bytes copied in after those in use. */
  lemma Appended(was: seq<Byte>, from: int, used: int, data: seq<Byte>)
    requires 0 <= from < |was| && 0 <= used && used + |data| <= |was|
    ensures var at := At(|was|, from + used);
            && 0 <= at < |was|
            && Window(CopiedIn(was, at, data), from, used + |data|) == Window(was, from, used) + data
  {
    var at := At(|was|, from + used);
    if data == [] {
      CopiedInNothing(was, at);
      assert Window(was, from, used) + [] == Window(was, from, used);
    } else {
      CopiedInOutside(was, from, used, data);
      CopiedInWindow(was, at, data);
      WindowSplit(CopiedIn(was, at, data), from, used, |data|);
    }
  }

  /** The first n bytes in use lie in up to two stretches. */
  lemma ReadInTwo(data: seq<Byte>, from: int, used: int, n: int)
    requires 0 <= from < |data| && 0 <= n <= used <= |data|
    ensures var first := if n < |data| - from then n else |data| - from;
            0 <= n - first <= |data| && data[from..from + first] + data[..n - first] == Window(data, from, used)[..n]
  {
    WindowIndex(data, from, used);
    hide Window;
    var first := if n < |data| - from then n else |data| - from;
    var two, one := data[from..from + first] + data[..n - first], Window(data, from, used)[..n];
    forall i | 0 <= i < n
      ensures two[i] == one[i]
    {
    }
  }

  /** The first bytes dropped. */
  lemma Dropped(data: seq<Byte>, taken: int, used: int, n: int, size: int)
    requires |data| == size > 0 && taken >= 0 && 0 <= n <= used <= size
    ensures Window(data, (taken + n) % size, used - n) == Window(data, taken % size, used)[n..]
  {
    PositionAfter(taken, n, size);
    if n < size {
      WindowSplit(data, taken % size, n, used - n);
    }
  }
}
