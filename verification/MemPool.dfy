/**
The memory pool (src/common/tbox_mp.c): chunks of fixed size classes, carved off the end of what
is used and kept in a free list per class, with a guard word before and after each block.
Addresses are offsets from the start of the pool.
*/
module MemPool {
  import opened Config
  import opened Lists

  const ZONE_COUNT := 72
  const HEADER := 12          // sizeof(MEM_CHUNK)
  const GUARD_SIZE := 4
  const TABLE := 1152         // the zone table: sizeof(MEM_ZONE) * MEM_ZONE_COUNT
  const CHUNK_MAGIC := 0x38FC

  /** Where a block starts in its chunk. */
  const BLOCK := HEADER + GUARD_SIZE

  // ----- Size classes

  /** MEM_CHUNK_SIZE(): header, guards and block, rounded up to four bytes. */
  function ChunkSize(size: int): int {
    (HEADER + size + 2 * GUARD_SIZE + 3) / 4 * 4
  }

  /** The size of every chunk of a zone. */
  function ZoneSize(z: int): int {
    if z < 16 then 8 * (z + 1)
    else if z < 24 then 16 * (z - 7)
    else if z < 32 then 32 * (z - 15)
    else if z < 40 then 64 * (z - 23)
    else if z < 48 then 128 * (z - 31)
    else if z < 56 then 256 * (z - 39)
    else if z < 64 then 512 * (z - 47)
    else 1024 * (z - 55)
  }

  /** mem_chunk_size[], which is a little generous in four places. */
  function ZoneLimit(z: int): int {
    if 35 <= z <= 38 then ZoneSize(z) + 2 else ZoneSize(z)
  }

  function RoundUp(n: int, step: int): int
    requires step > 0
  {
    (n + step - 1) / step * step
  }

  /** The zone chosen by mem_zoneindex(), ZONE_COUNT if there is none. */
  function ZoneFor(n: int): int {
    if n < 128 then RoundUp(n, 8) / 8 - 1
    else if n < 256 then RoundUp(n, 16) / 16 + 7
    else if n < 512 then RoundUp(n, 32) / 32 + 15
    else if n < 1024 then RoundUp(n, 64) / 64 + 23
    else if n < 2048 then RoundUp(n, 128) / 128 + 31
    else if n < 4096 then RoundUp(n, 256) / 256 + 39
    else if n < 8192 then RoundUp(n, 512) / 512 + 47
    else if n < 16384 then RoundUp(n, 1024) / 1024 + 55
    else ZONE_COUNT
  }

  /** The zone is the one of the smallest size class that is large enough. */
  lemma ZoneExact(n: int)
    requires 0 < n < 16384
    ensures 0 <= ZoneFor(n) < ZONE_COUNT && n <= ZoneSize(ZoneFor(n)) <= ZoneLimit(ZoneFor(n))
    ensures ZoneFor(n) > 0 ==> ZoneSize(ZoneFor(n) - 1) < n
  {
    if n < 512 {
      ZoneExactSmall(n);
    } else if n < 4096 {
      ZoneExactMiddle(n);
    } else {
      ZoneExactLarge(n);
    }
    hide ZoneFor, ZoneSize;
  }

  lemma ZoneExactSmall(n: int)
    requires 0 < n < 512
    ensures 0 <= ZoneFor(n) < 32 && n <= ZoneSize(ZoneFor(n))
    ensures ZoneFor(n) > 0 ==> ZoneSize(ZoneFor(n) - 1) < n
  {
  }

  lemma ZoneExactMiddle(n: int)
    requires 512 <= n < 4096
    ensures 31 <= ZoneFor(n) < 56 && n <= ZoneSize(ZoneFor(n)) && ZoneSize(ZoneFor(n) - 1) < n
  {
  }

  lemma ZoneExactLarge(n: int)
    requires 4096 <= n < 16384
    ensures 55 <= ZoneFor(n) < ZONE_COUNT && n <= ZoneSize(ZoneFor(n)) && ZoneSize(ZoneFor(n) - 1) < n
  {
  }

  lemma ZonesIncrease(y: int, z: int)
    requires 0 <= y < z < ZONE_COUNT
    ensures 0 < ZoneSize(y) < ZoneSize(z)
  {
  }

  /** A request goes to zone z. */
  predicate Fits(size: int, z: int) {
    0 < size && ChunkSize(size) < 16384 && ZoneFor(ChunkSize(size)) == z
  }

  lemma FitsExtent(size: int, z: int)
    requires Fits(size, z)
    ensures 2 <= z < ZONE_COUNT && BLOCK + size + GUARD_SIZE <= ZoneSize(z) && size < 65536
  {
    ZoneExact(ChunkSize(size));
  }

  lemma RoundUpExact(n: int, step: int)
    requires step > 0
    ensures n <= RoundUp(n, step) < n + step && RoundUp(n, step) / step * step == RoundUp(n, step)
  {
    var a := n + step - 1;
    var q, r := a / step, a % step;
    assert a == q * step + r;
    assert q * step < (q + 1) * step;
    QuotientUnique(q * step, step, q);
  }

  /** mem_zoneindex(), which also rounds its argument up. */
  method ZoneIndex(size: int) returns (index: int, rounded: int)
    requires 0 < size
    ensures index == ZoneFor(size)
    ensures if size < 16384 then index < ZONE_COUNT && rounded == ZoneSize(index) else index == ZONE_COUNT && rounded == size
  {
    hide RoundUp;
    var n := size;
    if n < 128 {
      RoundUpExact(n, 8);
      n := RoundUp(n, 8);
      return n / 8 - 1, n;
    }
    if n < 256 {
      RoundUpExact(n, 16);
      n := RoundUp(n, 16);
      return n / 16 + 7, n;
    }
    if n < 8192 {
      if n < 512 {
        RoundUpExact(n, 32);
        n := RoundUp(n, 32);
        return n / 32 + 15, n;
      }
      if n < 1024 {
        RoundUpExact(n, 64);
        n := RoundUp(n, 64);
        return n / 64 + 23, n;
      }
      if n < 2048 {
        RoundUpExact(n, 128);
        n := RoundUp(n, 128);
        return n / 128 + 31, n;
      }
      if n < 4096 {
        RoundUpExact(n, 256);
        n := RoundUp(n, 256);
        return n / 256 + 39, n;
      }
      RoundUpExact(n, 512);
      n := RoundUp(n, 512);
      return n / 512 + 47, n;
    }
    if n < 16384 {
      RoundUpExact(n, 1024);
      n := RoundUp(n, 1024);
      return n / 1024 + 55, n;
    }
    return ZONE_COUNT, n;
  }

  // ----- Where the pool lies

  const ALIGNMENT := 4        // MEM_ALIGN_SIZE

  /** MEM_ALIGN() of the start of a buffer. */
  function PoolStart(address: int): int {
    (address + ALIGNMENT - 1) / ALIGNMENT * ALIGNMENT
  }

  /** pool->size: what is left of a buffer from the aligned start on, rounded down. */
  function PoolSize(address: int, size: int): int {
    (address + size - PoolStart(address)) / ALIGNMENT * ALIGNMENT
  }

  /** The zone table that mp_create() writes lies inside the buffer that it was given. */
  predicate TableInside(address: int, size: int) {
    address <= PoolStart(address) && PoolStart(address) + TABLE <= address + size
  }

  /**
  mp_create() compares the size with that of the table before it aligns the start. The table
  then fits exactly when the size also covers the bytes that the alignment skips.
  */
  lemma TableFitsExactly(address: int, size: int)
    requires 0 <= address && TABLE < size
    ensures TableInside(address, size) <==> TABLE <= PoolSize(address, size)
    ensures TableInside(address, size) <==> size - TABLE >= (ALIGNMENT - address % ALIGNMENT) % ALIGNMENT
    ensures PoolStart(address) + PoolSize(address, size) <= address + size
  {
    var q, r := address / ALIGNMENT, address % ALIGNMENT;
    assert PoolStart(address) == ALIGNMENT * (if r == 0 then q else q + 1);
    var n := address + size - PoolStart(address);
    assert n == n / ALIGNMENT * ALIGNMENT + n % ALIGNMENT;
  }

  /** A buffer at an odd address, one byte larger than the table, is accepted and written past its end. */
  lemma TableOverruns()
    ensures TABLE < TABLE + 1 && !TableInside(1, TABLE + 1)
    ensures PoolStart(1) + TABLE == 1 + (TABLE + 1) + 2
  {
  }

  // ----- Words in memory

  type Byte = int

  /** The first word of a chunk: 15 bits of magic, the used bit, and 16 bits of size. */
  function HeaderWord(used: int, size: int): (w: seq<Byte>)
    ensures |w| == 4
  {
    [CHUNK_MAGIC % 256, CHUNK_MAGIC / 256 + 128 * used, size % 256, size / 256 % 256]
  }

  const GUARD: seq<Byte> := [0xEF, 0xBE, 0xAD, 0xDE]

  function MagicOf(w: seq<Byte>): int
    requires |w| == 4
  {
    w[0] + 256 * (w[1] % 128)
  }

  function UsedOf(w: seq<Byte>): int
    requires |w| == 4
  {
    w[1] / 128
  }

  function SizeOf(w: seq<Byte>): int
    requires |w| == 4
  {
    w[2] + 256 * w[3]
  }

  lemma HeaderRoundTrip(used: int, size: int)
    requires 0 <= used <= 1 && 0 <= size < 65536
    ensures var w := HeaderWord(used, size);
            MagicOf(w) == CHUNK_MAGIC && UsedOf(w) == used && SizeOf(w) == size
  {
  }

  predicate HasWord(mem: seq<Byte>, a: int, w: seq<Byte>) {
    0 <= a && a + 4 <= |mem| && mem[a..a + 4] == w
  }

  function Store(mem: seq<Byte>, a: int, bs: seq<Byte>): (m: seq<Byte>)
    requires 0 <= a && a + |bs| <= |mem|
    ensures |m| == |mem|
  {
    mem[..a] + bs + mem[a + |bs|..]
  }

  /** The two memories differ at most in [lo, hi). */
  ghost predicate SameOutside(mem: seq<Byte>, mem': seq<Byte>, lo: int, hi: int) {
    |mem'| == |mem| && forall i :: 0 <= i < |mem| && !(lo <= i < hi) ==> mem'[i] == mem[i]
  }

  lemma HasWordFrame(mem: seq<Byte>, mem': seq<Byte>, a: int, w: seq<Byte>, lo: int, hi: int)
    requires HasWord(mem, a, w) && SameOutside(mem, mem', lo, hi) && (a + 4 <= lo || hi <= a)
    ensures HasWord(mem', a, w)
  {
  }

  lemma StoreWord(mem: seq<Byte>, a: int, w: seq<Byte>)
    requires 0 <= a && a + 4 <= |mem| && |w| == 4
    ensures HasWord(Store(mem, a, w), a, w) && SameOutside(mem, Store(mem, a, w), a, a + 4)
  {
  }

  /** A live chunk: its header, and the guards before and after its block. */
  predicate Block(mem: seq<Byte>, c: int, size: int) {
    && HasWord(mem, c, HeaderWord(1, size))
    && HasWord(mem, c + HEADER, GUARD) && HasWord(mem, c + BLOCK + size, GUARD)
  }

  lemma BlockFrame(mem: seq<Byte>, mem': seq<Byte>, c: int, size: int, z: int, lo: int, hi: int)
    requires Block(mem, c, size) && Fits(size, z) && SameOutside(mem, mem', lo, hi)
    requires c + ZoneSize(z) <= lo || hi <= c || (c + BLOCK <= lo && hi <= c + BLOCK + size)
    ensures Block(mem', c, size)
  {
    FitsExtent(size, z);
    HasWordFrame(mem, mem', c, HeaderWord(1, size), lo, hi);
    HasWordFrame(mem, mem', c + HEADER, GUARD, lo, hi);
    HasWordFrame(mem, mem', c + BLOCK + size, GUARD, lo, hi);
  }

  function Zeros(n: nat): (s: seq<Byte>)
    ensures |s| == n
  {
    seq(n, i => 0)
  }

  /** What mp_alloc() writes into a chunk, block and all. */
  function Formatted(mem: seq<Byte>, c: int, size: int): seq<Byte>
    requires 0 <= c && 0 < size && c + BLOCK + size + GUARD_SIZE <= |mem|
  {
    var m1 := Store(mem, c, HeaderWord(1, size));
    var m2 := Store(m1, c + HEADER, GUARD);
    var m3 := Store(m2, c + BLOCK + size, GUARD);
    Store(m3, c + BLOCK, Zeros(size))
  }

  lemma FormattedBlock(mem: seq<Byte>, c: int, size: int)
    requires 0 <= c && 0 < size && c + BLOCK + size + GUARD_SIZE <= |mem|
    ensures Block(Formatted(mem, c, size), c, size)
    ensures SameOutside(mem, Formatted(mem, c, size), c, c + BLOCK + size + GUARD_SIZE)
  {
    var m1 := Store(mem, c, HeaderWord(1, size));
    StoreWord(mem, c, HeaderWord(1, size));
    var m2 := Store(m1, c + HEADER, GUARD);
    StoreWord(m1, c + HEADER, GUARD);
    var m3 := Store(m2, c + BLOCK + size, GUARD);
    StoreWord(m2, c + BLOCK + size, GUARD);
    var m4 := Formatted(mem, c, size);
    assert SameOutside(m3, m4, c + BLOCK, c + BLOCK + size);
    hide Store, HeaderWord;
    HasWordFrame(m1, m2, c, HeaderWord(1, size), c + HEADER, c + HEADER + 4);
    HasWordFrame(m2, m3, c, HeaderWord(1, size), c + BLOCK + size, c + BLOCK + size + 4);
    HasWordFrame(m3, m4, c, HeaderWord(1, size), c + BLOCK, c + BLOCK + size);
    HasWordFrame(m2, m3, c + HEADER, GUARD, c + BLOCK + size, c + BLOCK + size + 4);
    HasWordFrame(m3, m4, c + HEADER, GUARD, c + BLOCK, c + BLOCK + size);
    HasWordFrame(m3, m4, c + BLOCK + size, GUARD, c + BLOCK, c + BLOCK + size);
  }

  // ----- The pool

  /**
  mem: the pool's memory; pos: how much of it is used; free: the free list of each zone; and,
  beside the code's own variables, zones: the chunks carved so far with their zones, and
  live: the sizes of the blocks that clients hold.
  */
  datatype Pool = Pool(mem: seq<Byte>, pos: int, free: seq<seq<int>>, zones: map<int, int>, live: map<int, int>)

  predicate Covers(zones: map<int, int>, c: int, x: int) {
    c in zones && c <= x < c + ZoneSize(zones[c])
  }

  ghost predicate Covered(zones: map<int, int>, x: int) {
    exists c :: Covers(zones, c, x)
  }

  /** Chunks lie between the zone table and pos, do not overlap, and leave no gap. */
  ghost predicate Tiled(zones: map<int, int>, pos: int, size: int) {
    && TABLE <= pos <= size
    && (forall c :: c in zones ==> 2 <= zones[c] < ZONE_COUNT && TABLE <= c && c + ZoneSize(zones[c]) <= pos)
    && (forall c, d :: c in zones && d in zones && c < d ==> c + ZoneSize(zones[c]) <= d)
    && (forall x :: TABLE <= x < pos ==> Covered(zones, x))
  }

  /** Every chunk is either live or once in the free list of its own zone. */
  ghost predicate Accounted(free: seq<seq<int>>, zones: map<int, int>, live: map<int, int>) {
    && |free| == ZONE_COUNT
    && (forall z :: 0 <= z < ZONE_COUNT ==> Distinct(free[z]))
    && (forall z, c {:trigger c in free[z]} :: 0 <= z < ZONE_COUNT && c in free[z] ==> c in zones && zones[c] == z && c !in live)
    && (forall c :: c in live ==> c in zones)
    && (forall c :: c in zones && c !in live && 0 <= zones[c] < ZONE_COUNT ==> c in free[zones[c]])
  }

  /** Headers and guards are as they were left. */
  ghost predicate Intact(mem: seq<Byte>, zones: map<int, int>, live: map<int, int>) {
    && (forall c :: c in live && c in zones ==> Fits(live[c], zones[c]) && Block(mem, c, live[c]))
    && (forall c :: c in zones && c !in live ==> HasWord(mem, c, HeaderWord(0, 0)))
  }

  ghost predicate Inv(p: Pool) {
    Tiled(p.zones, p.pos, |p.mem|) && Accounted(p.free, p.zones, p.live) && Intact(p.mem, p.zones, p.live)
  }

  /** mp_create(), for memory that has room for the zone table. */
  function Created(mem: seq<Byte>): (p: Pool)
    requires |mem| >= TABLE
    ensures Inv(p)
  {
    Pool(mem, TABLE, seq(ZONE_COUNT, z => []), map[], map[])
  }

  /** The chunk mp_alloc() will use: the first of the free list, or a new one at pos if there is room. */
  function Chosen(p: Pool, z: int): Option<int>
    requires 0 <= z < |p.free|
  {
    if p.free[z] != [] then Some(p.free[z][0])
    else if p.pos + ZoneSize(z) <= |p.mem| then Some(p.pos)
    else None
  }

  /** mp_alloc(): the pool afterwards, and the address of the block if there is one. */
  ghost function Allocated(p: Pool, size: int): (Pool, Option<int>)
    requires Inv(p) && size >= 0
  {
    if size == 0 || ChunkSize(size) >= 16384 then (p, None)
    else
      var z := ZoneFor(ChunkSize(size));
      FitsExtent(size, z);
      match Chosen(p, z)
      case None => (p, None)
      case Some(c) =>
        ChosenInPool(p, z);
        var p1 := if p.free[z] != [] then p.(free := p.free[z := p.free[z][1..]])
                  else p.(pos := p.pos + ZoneSize(z), zones := p.zones[c := z]);
        (p1.(mem := Formatted(p.mem, c, size), live := p.live[c := size]), Some(c + BLOCK))
  }

  predicate Outside(p: Pool, ptr: int) {
    ptr < 0 || ptr >= |p.mem|
  }

  /** mp_free() */
  function Freed(p: Pool, ptr: int): Pool
    requires |p.free| == ZONE_COUNT && (Outside(p, ptr) || BLOCK <= ptr)
  {
    if Outside(p, ptr) then p else
    var c := ptr - BLOCK;
    var w := p.mem[c..c + 4];
    if UsedOf(w) == 0 || MagicOf(w) != CHUNK_MAGIC then p
    else
      var n := ChunkSize(SizeOf(w));
      var z := ZoneFor(n);
      if z < 0 || z >= ZONE_COUNT || SizeOf(w) > ZoneLimit(z) then p
      else p.(mem := Store(p.mem, c, HeaderWord(0, 0)), free := p.free[z := p.free[z] + [c]], live := p.live - {c})
  }

  lemma ChosenInPool(p: Pool, z: int)
    requires Inv(p) && 0 <= z < ZONE_COUNT && Chosen(p, z).Some?
    ensures var c := Chosen(p, z).value;
            && TABLE <= c && c + ZoneSize(z) <= |p.mem| && c !in p.live
            && (p.free[z] != [] ==> c in p.zones && p.zones[c] == z)
            && (p.free[z] == [] ==> c == p.pos && c !in p.zones)
  {
    var c := Chosen(p, z).value;
    ZonePositive(z);
    if p.free[z] != [] {
      var q := p.free[z];
      var h := q[0];
      assert h in p.free[z];
    } else if c in p.zones {
      ZonePositive(p.zones[c]);
    }
  }

  lemma ZonePositive(z: int)
    requires 0 <= z < ZONE_COUNT
    ensures ZoneSize(z) >= 8 && (z >= 2 ==> ZoneSize(z) > BLOCK + GUARD_SIZE)
  {
  }

  /** A new chunk extends the tiling. */
  lemma TiledExtends(zones: map<int, int>, pos: int, size: int, z: int)
    requires Tiled(zones, pos, size) && 2 <= z < ZONE_COUNT && pos + ZoneSize(z) <= size
    ensures Tiled(zones[pos := z], pos + ZoneSize(z), size)
  {
    ZonePositive(z);
    var zones' := zones[pos := z];
    forall c | c in zones
      ensures c < pos
    {
      ZonePositive(zones[c]);
    }
    forall x | TABLE <= x < pos + ZoneSize(z)
      ensures Covered(zones', x)
    {
      if x < pos {
        assert Covered(zones, x);
        var c :| Covers(zones, c, x);
        assert Covers(zones', c, x);
      } else {
        assert Covers(zones', pos, x);
      }
    }
  }

  /** Writing inside one chunk leaves headers and guards of all others alone. */
  lemma IntactElsewhere(p: Pool, mem': seq<Byte>, zones: map<int, int>, c: int, z: int)
    requires Inv(p) && 0 <= z < ZONE_COUNT && SameOutside(p.mem, mem', c, c + ZoneSize(z))
    requires if c in p.zones then p.zones[c] == z && zones == p.zones else c == p.pos && zones == p.zones[c := z]
    ensures forall d :: d in p.live && d != c ==> d in zones && Fits(p.live[d], zones[d]) && Block(mem', d, p.live[d])
    ensures forall d :: d in zones && d !in p.live && d != c ==> HasWord(mem', d, HeaderWord(0, 0))
  {
    forall d | d in p.zones && d != c
      ensures d + ZoneSize(p.zones[d]) <= c || c + ZoneSize(z) <= d
    {
    }
    forall d | d in p.live && d != c
      ensures Block(mem', d, p.live[d])
    {
      BlockFrame(p.mem, mem', d, p.live[d], p.zones[d], c, c + ZoneSize(z));
    }
    forall d | d in p.zones && d !in p.live && d != c
      ensures HasWord(mem', d, HeaderWord(0, 0))
    {
      ZonePositive(p.zones[d]);
      HasWordFrame(p.mem, mem', d, HeaderWord(0, 0), c, c + ZoneSize(z));
    }
  }

  lemma ReusedAccounted(p: Pool, z: int, size: int)
    requires Accounted(p.free, p.zones, p.live) && 0 <= z < ZONE_COUNT && p.free[z] != []
    ensures var c := p.free[z][0];
            Accounted(p.free[z := p.free[z][1..]], p.zones, p.live[c := size])
  {
    var q := p.free[z];
    var c := q[0];
    assert c in p.free[z];
    assert forall u :: u in q <==> u == c || u in q[1..];
  }

  lemma CarvedAccounted(p: Pool, z: int, c: int, size: int)
    requires Accounted(p.free, p.zones, p.live) && 0 <= z < ZONE_COUNT && c !in p.zones
    ensures Accounted(p.free, p.zones[c := z], p.live[c := size])
  {
  }

  lemma FreeListPerZone(p: Pool)
    requires Inv(p)
    ensures |p.free| == ZONE_COUNT
  {
  }

  lemma NothingAllocated(p: Pool, size: int)
    requires Inv(p) && size >= 0
    ensures ChunkSize(size) > 0
    ensures size == 0 || ChunkSize(size) >= 16384 ==> Allocated(p, size) == (p, None)
  {
  }

  /** Allocation with the zone, and what is in it, known. */
  lemma AllocUnfolds(p: Pool, size: int, z: int)
    requires Inv(p) && Fits(size, z)
    ensures |p.free| == ZONE_COUNT && 2 <= z < ZONE_COUNT && 0 < ZoneSize(z) && ZoneSize(z) <= ZoneLimit(z)
    ensures var c := if p.free[z] == [] then p.pos else p.free[z][0];
            if p.free[z] == [] && p.pos + ZoneSize(z) > |p.mem| then Allocated(p, size) == (p, None)
            else
              && 0 <= c && c + BLOCK + size + GUARD_SIZE <= |p.mem|
              && Allocated(p, size) ==
                 (p.(mem := Formatted(p.mem, c, size), live := p.live[c := size],
                     free := if p.free[z] != [] then p.free[z := p.free[z][1..]] else p.free,
                     pos := if p.free[z] != [] then p.pos else p.pos + ZoneSize(z),
                     zones := if p.free[z] != [] then p.zones else p.zones[c := z]), Some(c + BLOCK))
  {
    FreeListPerZone(p);
    FitsExtent(size, z);
    ZonePositive(z);
    if Chosen(p, z).Some? {
      ChosenInPool(p, z);
    }
    hide Inv, Formatted, ZoneFor, ZoneSize;
  }

  /**
  An allocation keeps the pool in order, hands out a block of the size asked for that was free,
  and changes no byte outside the chunk it uses; the links of the free lists are a matter of their own.
  */
  lemma AllocKeeps(p: Pool, size: int)
    requires Inv(p) && size >= 0
    ensures var (p', r) := Allocated(p, size);
            && Inv(p') && |p.free| == ZONE_COUNT
            && (r.None? ==> p' == p)
            && (r.None? <==> size == 0 || ChunkSize(size) >= 16384 ||
                             (var z := ZoneFor(ChunkSize(size));
                              0 <= z < ZONE_COUNT && p.free[z] == [] && p.pos + ZoneSize(z) > |p.mem|))
            && (r.Some? ==> var c := r.value - BLOCK;
                            && c !in p.live && p'.live == p.live[c := size] && c in p'.zones
                            && SameOutside(p.mem, p'.mem, c, c + ZoneSize(p'.zones[c]))
                            && r.value + size <= |p'.mem| && p'.mem[r.value..r.value + size] == Zeros(size))
  {
    hide Inv, ZoneFor, ZoneSize, Formatted;
    FreeListPerZone(p);
    if size != 0 && ChunkSize(size) < 16384 {
      var z := ZoneFor(ChunkSize(size));
      FitsExtent(size, z);
      if Chosen(p, z).Some? {
        AllocInChunk(p, size, z, Chosen(p, z).value);
      }
    }
  }

  lemma AllocInChunk(p: Pool, size: int, z: int, c: int)
    requires Inv(p) && Fits(size, z) && 2 <= z < ZONE_COUNT && Chosen(p, z) == Some(c)
    ensures 0 <= c && BLOCK + size + GUARD_SIZE <= ZoneSize(z) && c + ZoneSize(z) <= |p.mem| && c !in p.live
    ensures var p1 := if p.free[z] != [] then p.(free := p.free[z := p.free[z][1..]])
                      else p.(pos := p.pos + ZoneSize(z), zones := p.zones[c := z]);
            var p' := p1.(mem := Formatted(p.mem, c, size), live := p.live[c := size]);
            && Inv(p') && c in p'.zones && p'.zones[c] == z
            && SameOutside(p.mem, p'.mem, c, c + ZoneSize(z))
            && p'.mem[c + BLOCK..c + BLOCK + size] == Zeros(size)
  {
    ChosenInPool(p, z);
    FitsExtent(size, z);
    hide ZoneFor, ZoneSize, HeaderWord, Distinct;
    FormattedBlock(p.mem, c, size);
    FormattedIsZero(p.mem, c, size);
    var mem' := Formatted(p.mem, c, size);
    var zones' := if p.free[z] != [] then p.zones else p.zones[c := z];
    assert SameOutside(p.mem, mem', c, c + ZoneSize(z));
    IntactElsewhere(p, mem', zones', c, z);
    if p.free[z] != [] {
      ReusedAccounted(p, z, size);
    } else {
      CarvedAccounted(p, z, c, size);
      TiledExtends(p.zones, p.pos, |p.mem|, z);
    }
    hide Tiled, Accounted, Formatted;
  }

  lemma FormattedIsZero(mem: seq<Byte>, c: int, size: int)
    requires 0 <= c && 0 < size && c + BLOCK + size + GUARD_SIZE <= |mem|
    ensures |Formatted(mem, c, size)| == |mem|
    ensures Formatted(mem, c, size)[c + BLOCK..c + BLOCK + size] == Zeros(size)
  {
  }

  // ----- Freeing, writing and checking

  /** An address that mp_alloc() returned at some time. */
  predicate HandedOut(p: Pool, ptr: int) {
    ptr - BLOCK in p.zones
  }

  lemma HandedOutInPool(p: Pool, ptr: int)
    requires Inv(p) && HandedOut(p, ptr)
    ensures |p.free| == ZONE_COUNT && TABLE <= ptr - BLOCK && ptr < |p.mem|
  {
    ZonePositive(p.zones[ptr - BLOCK]);
  }

  /** A block that is not live is left alone, and so is everything else: freeing twice does nothing. */
  lemma DoubleFreeDoesNothing(p: Pool, ptr: int)
    requires Inv(p) && HandedOut(p, ptr) && ptr - BLOCK !in p.live
    ensures |p.free| == ZONE_COUNT && BLOCK <= ptr && Freed(p, ptr) == p
  {
    HandedOutInPool(p, ptr);
    HeaderRoundTrip(0, 0);
  }

  /** Freeing a live block puts its chunk at the end of the free list it came from. */
  lemma FreeForm(p: Pool, ptr: int)
    requires Inv(p) && ptr - BLOCK in p.live
    ensures |p.free| == ZONE_COUNT && TABLE <= ptr - BLOCK && ptr < |p.mem|
    ensures var c := ptr - BLOCK;
            && c in p.zones && 0 <= p.zones[c] < ZONE_COUNT
            && Freed(p, ptr) == p.(mem := Store(p.mem, c, HeaderWord(0, 0)),
                                   free := p.free[p.zones[c] := p.free[p.zones[c]] + [c]], live := p.live - {c})
  {
    var c := ptr - BLOCK;
    HandedOutInPool(p, ptr);
    var size, z := p.live[c], p.zones[c];
    FitsExtent(size, z);
    ZoneExact(ChunkSize(size));
    HeaderRoundTrip(1, size);
    hide HeaderWord, ZoneFor, ZoneSize;
    assert p.mem[c..c + 4] == HeaderWord(1, size);
  }

  lemma FreedAccounted(p: Pool, c: int)
    requires Accounted(p.free, p.zones, p.live) && c in p.live && c in p.zones && 0 <= p.zones[c] < ZONE_COUNT
    ensures Accounted(p.free[p.zones[c] := p.free[p.zones[c]] + [c]], p.zones, p.live - {c})
  {
    var z := p.zones[c];
    var q := p.free[z];
    assert c !in q;
    InsertMembers(Ring(q, 0), |q|, c);
    assert Splice(q, |q|, c) == q + [c];
  }

  lemma FreeKeeps(p: Pool, ptr: int)
    requires Inv(p) && (HandedOut(p, ptr) || Outside(p, ptr))
    ensures |p.free| == ZONE_COUNT && (Outside(p, ptr) || BLOCK <= ptr)
    ensures Inv(Freed(p, ptr))
  {
    if !HandedOut(p, ptr) {
      return;
    }
    var c := ptr - BLOCK;
    if c in p.live {
      FreeForm(p, ptr);
      FreedAccounted(p, c);
      ZonePositive(p.zones[c]);
      hide ZoneSize, HeaderWord, Freed, Accounted;
      StoreWord(p.mem, c, HeaderWord(0, 0));
      IntactElsewhere(p, Store(p.mem, c, HeaderWord(0, 0)), p.zones, c, p.zones[c]);
    } else {
      DoubleFreeDoesNothing(p, ptr);
    }
  }

  /** A client writes a byte of its own block. */
  lemma ClientWriteKeeps(p: Pool, c: int, i: int, b: Byte)
    requires Inv(p) && c in p.live && 0 <= i < p.live[c]
    ensures 0 <= c && c + BLOCK + i < |p.mem| && Inv(p.(mem := p.mem[c + BLOCK + i := b]))
  {
    var z, a := p.zones[c], c + BLOCK + i;
    FitsExtent(p.live[c], z);
    var mem' := p.mem[a := b];
    hide HeaderWord, ZoneFor, ZoneSize, Accounted;
    assert SameOutside(p.mem, mem', c, c + ZoneSize(z));
    IntactElsewhere(p, mem', p.zones, c, z);
    BlockFrame(p.mem, mem', c, p.live[c], z, a, a + 1);
  }

  datatype CheckResult = CheckOk | InvalidPointer | InvalidData | Underflow | Overflow

  /** mp_check() */
  function Check(p: Pool, ptr: int): CheckResult
    requires Outside(p, ptr) || BLOCK <= ptr
  {
    if Outside(p, ptr) then InvalidPointer else
    var c := ptr - BLOCK;
    var w := p.mem[c..c + 4];
    if MagicOf(w) != CHUNK_MAGIC || UsedOf(w) == 0 then InvalidData
    else
      var z := ZoneFor(ChunkSize(SizeOf(w)));
      if z < 0 || z >= ZONE_COUNT || SizeOf(w) > ZoneLimit(z) then InvalidData
      else if !HasWord(p.mem, ptr - GUARD_SIZE, GUARD) then Underflow
      else if !HasWord(p.mem, ptr + SizeOf(w), GUARD) then Overflow
      else CheckOk
  }

  /** While clients keep to their blocks, every block that is live checks out, and no other does. */
  lemma CheckExact(p: Pool, ptr: int)
    requires Inv(p) && HandedOut(p, ptr)
    ensures BLOCK <= ptr
    ensures Check(p, ptr) == if ptr - BLOCK in p.live then CheckOk else InvalidData
  {
    HandedOutInPool(p, ptr);
    var c := ptr - BLOCK;
    if c in p.live {
      var size, z := p.live[c], p.zones[c];
      FitsExtent(size, z);
      ZoneExact(ChunkSize(size));
      HeaderRoundTrip(1, size);
      hide HeaderWord, ZoneFor, ZoneSize, GUARD;
      assert p.mem[c..c + 4] == HeaderWord(1, size);
    } else {
      HeaderRoundTrip(0, 0);
      ZonePositive(p.zones[c]);
      hide HeaderWord, ZoneFor, ZoneSize;
      assert p.mem[c..c + 4] == HeaderWord(0, 0);
    }
  }

  /** The four bytes at address a are the guard pattern 0xDEADBEEF, low byte first. */
  predicate GuardStands(mem: seq<Byte>, a: int) {
    0 <= a && a + 4 <= |mem| && mem[a] == 0xEF && mem[a + 1] == 0xBE && mem[a + 2] == 0xAD && mem[a + 3] == 0xDE
  }

  /**
  Whatever has been written outside its header since a block was handed out, the check says whether
  a byte of the guard before the block was changed, or else of the guard after it.
  */
  lemma DamageShows(p: Pool, mem: seq<Byte>, c: int)
    requires Inv(p) && c in p.live && |mem| == |p.mem|
    requires 0 <= c && forall i :: c <= i < c + 4 && i < |mem| ==> mem[i] == p.mem[i]
    ensures GuardStands(p.mem, c + HEADER) && GuardStands(p.mem, c + BLOCK + p.live[c])
    ensures Check(p.(mem := mem), c + BLOCK) ==
            if !GuardStands(mem, c + HEADER) then Underflow
            else if !GuardStands(mem, c + BLOCK + p.live[c]) then Overflow
            else CheckOk
  {
    hide *;
    BlockInPool(p, c);
    var size := p.live[c];
    GuardBytes(mem, c + HEADER);
    GuardBytes(mem, c + BLOCK + size);
    GuardBytes(p.mem, c + HEADER);
    GuardBytes(p.mem, c + BLOCK + size);
    BlockParts(p.mem, c, size);
    assert mem[c..c + 4] == p.mem[c..c + 4];
    CheckOfBlock(p.(mem := mem), c, size, p.zones[c]);
  }

  lemma BlockParts(mem: seq<Byte>, c: int, size: int)
    requires Block(mem, c, size)
    ensures 0 <= c && c + 4 <= |mem| && mem[c..c + 4] == HeaderWord(1, size)
    ensures HasWord(mem, c + HEADER, GUARD) && HasWord(mem, c + BLOCK + size, GUARD)
  {
  }

  /** What the check says of a block whose header is as it was handed out. */
  lemma CheckOfBlock(p: Pool, c: int, size: int, z: int)
    requires 0 <= c && Fits(size, z) && c + ZoneSize(z) <= |p.mem| && c + 4 <= |p.mem| && p.mem[c..c + 4] == HeaderWord(1, size)
    ensures Check(p, c + BLOCK) ==
            if !HasWord(p.mem, c + HEADER, GUARD) then Underflow
            else if !HasWord(p.mem, c + BLOCK + size, GUARD) then Overflow
            else CheckOk
  {
    FitsExtent(size, z);
    ZoneExact(ChunkSize(size));
    HeaderRoundTrip(1, size);
    hide HeaderWord, ZoneFor, ZoneSize, HasWord;
  }

  lemma GuardBytes(mem: seq<Byte>, a: int)
    ensures HasWord(mem, a, GUARD) <==> GuardStands(mem, a)
  {
    if 0 <= a && a + 4 <= |mem| {
      assert mem[a..a + 4] == [mem[a], mem[a + 1], mem[a + 2], mem[a + 3]];
    }
  }

  lemma BlockInPool(p: Pool, c: int)
    requires Inv(p) && c in p.live
    ensures c in p.zones && 0 <= c && Fits(p.live[c], p.zones[c]) && c + ZoneSize(p.zones[c]) <= |p.mem|
    ensures Block(p.mem, c, p.live[c])
  {
    HandedOutInPool(p, c + BLOCK);
    hide ZoneFor, ZoneSize, HeaderWord;
  }

  // ----- Whole runs

  // The links of the free lists are bytes of the pool, too: of the zone table and of free chunks.
  // The list operations inside mp_alloc() and mp_free() write them; here, anything at all may be
  // written there at any time.

  datatype Step =
    | Alloc(size: int)
    | Free(ptr: int)
    | Write(ptr: int, i: int, b: Byte)
    | LinkHead(a: int, b: Byte)           // a link of the list head in a zone
    | LinkChunk(c: int, i: int, b: Byte)  // a link of a free chunk

  const ZONE_BYTES := 16      // sizeof(MEM_ZONE), of which the last eight bytes are the links
  const LINK := 4             // where the links of a chunk start

  predicate IsHeadLink(a: int) {
    0 <= a < TABLE && a % ZONE_BYTES >= 8
  }

  /** Clients free only what they were given, and write only inside blocks they hold. */
  predicate Enabled(p: Pool, step: Step) {
    match step
    case Alloc(size) => size >= 0
    case Free(ptr) => HandedOut(p, ptr) || Outside(p, ptr)
    case Write(ptr, i, b) => ptr - BLOCK in p.live && 0 <= i < p.live[ptr - BLOCK]
    case LinkHead(a, b) => IsHeadLink(a)
    case LinkChunk(c, i, b) => c in p.zones && c !in p.live && LINK <= i < HEADER
  }

  /** A byte of the zone table, or a byte behind the first word of a free chunk. */
  lemma ByteKeeps(p: Pool, a: int, c: int, b: Byte)
    requires Inv(p) && (0 <= a < TABLE || (c in p.zones && c !in p.live && c + LINK <= a < c + HEADER))
    ensures 0 <= a < |p.mem| && Inv(p.(mem := p.mem[a := b]))
  {
    if a >= TABLE {
      ZonePositive(p.zones[c]);
    }
    var mem' := p.mem[a := b];
    forall d | d in p.zones
      ensures d in p.live ==> Block(mem', d, p.live[d])
      ensures d !in p.live ==> HasWord(mem', d, HeaderWord(0, 0))
    {
      ByteSpares(p, a, c, b, d);
    }
    hide ZoneSize, HeaderWord, ZoneFor;
  }

  lemma ByteSpares(p: Pool, a: int, c: int, b: Byte, d: int)
    requires Inv(p) && 0 <= a < |p.mem| && d in p.zones
    requires a < TABLE || (c in p.zones && c !in p.live && c + LINK <= a < c + HEADER)
    ensures d in p.live ==> Block(p.mem[a := b], d, p.live[d])
    ensures d !in p.live ==> HasWord(p.mem[a := b], d, HeaderWord(0, 0))
  {
    if a >= TABLE {
      ZonePositive(p.zones[c]);
    }
    assert d + ZoneSize(p.zones[d]) <= a || a + 1 <= d || d == c;
    hide HeaderWord, ZoneSize, ZoneFor;
    if d in p.live {
      BlockFrame(p.mem, p.mem[a := b], d, p.live[d], p.zones[d], a, a + 1);
    } else {
      assert a + 1 <= d || d + LINK <= a by {
        ZonePositive(p.zones[d]);
      }
      HasWordFrame(p.mem, p.mem[a := b], d, HeaderWord(0, 0), a, a + 1);
    }
  }

  ghost function AllocStep(p: Pool, size: int): (p': Pool)
    requires Inv(p) && size >= 0
    ensures Inv(p')
  {
    AllocKeeps(p, size);
    Allocated(p, size).0
  }

  ghost function FreeStep(p: Pool, ptr: int): (p': Pool)
    requires Inv(p) && (HandedOut(p, ptr) || Outside(p, ptr))
    ensures Inv(p')
  {
    FreeKeeps(p, ptr);
    Freed(p, ptr)
  }

  ghost function WriteStep(p: Pool, c: int, i: int, b: Byte): (p': Pool)
    requires Inv(p) && c in p.live && 0 <= i < p.live[c]
    ensures Inv(p')
  {
    ClientWriteKeeps(p, c, i, b);
    p.(mem := p.mem[c + BLOCK + i := b])
  }

  ghost function LinkStep(p: Pool, a: int, c: int, b: Byte): (p': Pool)
    requires Inv(p) && (0 <= a < TABLE || (c in p.zones && c !in p.live && c + LINK <= a < c + HEADER))
    ensures Inv(p')
  {
    ByteKeeps(p, a, c, b);
    p.(mem := p.mem[a := b])
  }

  ghost function Apply(p: Pool, step: Step): (p': Pool)
    requires Inv(p) && Enabled(p, step)
    ensures Inv(p')
  {
    match step
    case Alloc(size) => AllocStep(p, size)
    case Free(ptr) => FreeStep(p, ptr)
    case Write(ptr, i, b) => WriteStep(p, ptr - BLOCK, i, b)
    case LinkHead(a, b) => LinkStep(p, a, 0, b)
    case LinkChunk(c, i, b) => LinkStep(p, c + i, c, b)
  }

  ghost predicate Possible(p: Pool, steps: seq<Step>)
    requires Inv(p)
    decreases |steps|
  {
    steps == [] || (Enabled(p, steps[0]) && Possible(Apply(p, steps[0]), steps[1..]))
  }

  ghost function Run(p: Pool, steps: seq<Step>): (p': Pool)
    requires Inv(p) && Possible(p, steps)
    ensures Inv(p')
    decreases |steps|
  {
    if steps == [] then p else Run(Apply(p, steps[0]), steps[1..])
  }

  /** What the invariant says of live blocks and of the chunks that hold the byte at x. */
  ghost predicate Safe(p: Pool, c: int, d: int, x: int)
    requires Inv(p)
  {
    && (c in p.live ==> TABLE <= c && 0 < p.live[c] && c + BLOCK + p.live[c] + GUARD_SIZE <= p.pos <= |p.mem|)
    && (c in p.live && d in p.live && c < d ==> c + BLOCK + p.live[c] + GUARD_SIZE <= d)
    && (c in p.live ==> Check(p, c + BLOCK) == CheckOk)
    && (TABLE <= x < p.pos ==> Covered(p.zones, x))
    && (Covers(p.zones, c, x) && Covers(p.zones, d, x) ==> c == d)
    && (c in p.zones ==> (c in p.live <==> c !in p.free[p.zones[c]]))
  }

  lemma InvIsSafe(p: Pool, c: int, d: int, x: int)
    requires Inv(p)
    ensures Safe(p, c, d, x)
  {
    if c in p.live {
      FitsExtent(p.live[c], p.zones[c]);
      CheckExact(p, c + BLOCK);
    }
    hide ZoneSize, ZoneFor, Check, HeaderWord, Intact;
  }

  /**
  After any run: live blocks with their headers and guards lie inside the pool and do not
  overlap, every byte in use after the zone table belongs to exactly one chunk, chunks of a zone
  have one size, and every live block checks out.
  */
  lemma RunIsSafe(mem: seq<Byte>, steps: seq<Step>, c: int, d: int, x: int)
    requires |mem| >= TABLE && Possible(Created(mem), steps)
    ensures Safe(Run(Created(mem), steps), c, d, x)
  {
    hide Inv, Safe, Created;
    InvIsSafe(Run(Created(mem), steps), c, d, x);
  }

  /** The marks and sizes of the zone table are as they were. */
  ghost predicate SameZones(mem: seq<Byte>, mem': seq<Byte>) {
    TABLE <= |mem| == |mem'| && forall a :: 0 <= a < TABLE && !IsHeadLink(a) ==> mem'[a] == mem[a]
  }

  /**
  No run touches the zone table but for the links of its list heads, so the marks and sizes in it
  that mp_alloc() and mp_free() compare are always those that mp_create() wrote.
  */
  lemma {:induction false} ZonesUntouched(p: Pool, steps: seq<Step>)
    requires Inv(p) && Possible(p, steps)
    ensures SameZones(p.mem, Run(p, steps).mem)
    decreases |steps|
  {
    hide IsHeadLink;
    if steps != [] {
      StepSparesZones(p, steps[0]);
      ZonesUntouched(Apply(p, steps[0]), steps[1..]);
    }
  }

  lemma StepSparesZones(p: Pool, step: Step)
    requires Inv(p) && Enabled(p, step)
    ensures SameZones(p.mem, Apply(p, step).mem)
  {
    hide ZoneSize, ZoneFor, HeaderWord, Formatted, Intact;
    match step
    case Alloc(size) =>
      AllocKeeps(p, size);
    case Free(ptr) =>
      if HandedOut(p, ptr) {
        HandedOutInPool(p, ptr);
        if ptr - BLOCK in p.live {
          FreeForm(p, ptr);
        } else {
          DoubleFreeDoesNothing(p, ptr);
        }
      }
    case Write(ptr, i, b) =>
      ClientWriteKeeps(p, ptr - BLOCK, i, b);
      HandedOutInPool(p, ptr);
    case LinkHead(a, b) =>
    case LinkChunk(c, i, b) =>
      ByteKeeps(p, c + i, c, b);
      assert TABLE <= c;
  }

  // ----- The code

  /** mp_create(): no pool for a buffer that is not larger than the zone table. */
  method Create(address: nat, size: nat) returns (pool: MemoryPool?)
    requires size <= TABLE || TableInside(address, size)
    ensures pool == null <==> size <= TABLE
    ensures pool != null ==>
              && fresh(pool) && fresh(pool.buffer) && pool.Valid() && TABLE <= PoolSize(address, size)
              && pool.St() == Created(Zeros(PoolSize(address, size)))
  {
    if size <= TABLE {
      return null;
    }
    pool := new MemoryPool(address, size);
  }

  class MemoryPool {
    const buffer: array<Byte>
    var pos: int
    var freeLists: seq<seq<int>>
    ghost var zones: map<int, int>
    ghost var live: map<int, int>

    ghost function St(): Pool
      reads this, buffer
    {
      Pool(buffer[..], pos, freeLists, zones, live)
    }

    ghost predicate Valid()
      reads this, buffer
    {
      Inv(St())
    }

    /** The pool in a buffer that has room for the zone table; the memory starts as zeros. */
    constructor (address: nat, size: nat)
      requires TABLE < size && TableInside(address, size)
      ensures TABLE <= PoolSize(address, size)
      ensures Valid() && fresh(buffer) && St() == Created(Zeros(PoolSize(address, size)))
    {
      TableFitsExactly(address, size);
      buffer := new Byte[PoolSize(address, size)](i => 0);
      pos, freeLists := TABLE, seq(ZONE_COUNT, z => []);
      zones, live := map[], map[];
      new;
      assert Inv(Created(buffer[..]));
    }

    method StoreWordAt(a: int, w: seq<Byte>)
      requires 0 <= a && a + 4 <= buffer.Length && |w| == 4
      modifies buffer
      ensures buffer[..] == Store(old(buffer[..]), a, w)
    {
      buffer[a], buffer[a + 1], buffer[a + 2], buffer[a + 3] := w[0], w[1], w[2], w[3];
    }

    /** mem_alloc_internal() */
    method AllocInternal(size: int) returns (c: Option<int>)
      requires size > 0
      modifies this`pos
      ensures if old(pos) + size > buffer.Length then c == None && pos == old(pos)
              else c == Some(old(pos)) && pos == old(pos) + size
    {
      if pos + size > buffer.Length {
        return None;
      }
      c := Some(pos);
      pos := pos + size;
    }

    /** mp_alloc() */
    method Alloc(size: int) returns (ptr: Option<int>)
      requires Valid() && size >= 0
      modifies this, buffer
      ensures Valid()
      ensures (St(), ptr) == Allocated(old(St()), size)
    {
      hide Inv, Formatted, ZoneFor, ZoneSize, ZoneLimit, Allocated, ChunkSize;
      NothingAllocated(St(), size);
      if size == 0 {
        return None;
      }
      var z, dataSize := ZoneIndex(ChunkSize(size));
      if z >= ZONE_COUNT {
        return None;
      }
      AllocKeeps(St(), size);
      AllocUnfolds(St(), size, z);
      ptr := AllocFrom(size, z, dataSize);
    }

    /** The critical section of mp_alloc(), for a zone of the right size. */
    method AllocFrom(size: int, z: int, dataSize: int) returns (ptr: Option<int>)
      requires |freeLists| == ZONE_COUNT && 0 <= z < ZONE_COUNT && 0 < size && 0 < dataSize
      requires var c := if freeLists[z] == [] then pos else freeLists[z][0];
               (freeLists[z] == [] && pos + dataSize > buffer.Length) || (0 <= c && c + BLOCK + size + GUARD_SIZE <= buffer.Length)
      modifies this, buffer
      ensures var p := old(St());
              var c := if p.free[z] == [] then p.pos else p.free[z][0];
              if p.free[z] == [] && p.pos + dataSize > |p.mem| then St() == p && ptr == None
              else
                && ptr == Some(c + BLOCK)
                && St() == p.(mem := Formatted(p.mem, c, size), live := p.live[c := size],
                              free := if p.free[z] != [] then p.free[z := p.free[z][1..]] else p.free,
                              pos := if p.free[z] != [] then p.pos else p.pos + dataSize,
                              zones := if p.free[z] != [] then p.zones else p.zones[c := z])
    {
      hide Formatted;
      var c;
      if freeLists[z] == [] {
        var carved := AllocInternal(dataSize);
        if carved == None {
          return None;
        }
        c := carved.value;
        zones := zones[c := z];
      } else {
        c := freeLists[z][0];
        freeLists := freeLists[z := freeLists[z][1..]];
      }
      live := live[c := size];
      Format(c, size);
      ptr := Some(c + BLOCK);
    }

    /** The header, the guards and the cleared block of a chunk that is handed out. */
    method Format(c: int, size: int)
      requires 0 <= c && 0 < size && c + BLOCK + size + GUARD_SIZE <= buffer.Length
      modifies buffer
      ensures buffer[..] == Formatted(old(buffer[..]), c, size)
    {
      hide HeaderWord, Store;
      StoreWordAt(c, HeaderWord(1, size));
      StoreWordAt(c + HEADER, GUARD);
      StoreWordAt(c + BLOCK + size, GUARD);
      ClearBlock(c + BLOCK, size);
    }

    /** memset() */
    method ClearBlock(a: int, size: int)
      requires 0 <= a && 0 < size && a + size <= buffer.Length
      modifies buffer
      ensures buffer[..] == Store(old(buffer[..]), a, Zeros(size))
    {
      forall i | 0 <= i < size {
        buffer[a + i] := 0;
      }
    }

    /** mp_free() */
    method Free(ptr: int)
      requires Valid() && (Outside(St(), ptr) || BLOCK <= ptr)
      modifies this, buffer
      ensures |old(freeLists)| == ZONE_COUNT && St() == Freed(old(St()), ptr)
      ensures HandedOut(old(St()), ptr) || Outside(old(St()), ptr) ==> Valid()
    {
      hide Inv, ZoneFor, Store, HeaderWord, MagicOf, UsedOf, SizeOf, ChunkSize, ZoneLimit;
      FreeListPerZone(St());
      if HandedOut(St(), ptr) || Outside(St(), ptr) {
        FreeKeeps(St(), ptr);
      }
      if ptr < 0 || ptr >= buffer.Length {
        return;
      }
      var c := ptr - BLOCK;
      var w := buffer[c..c + 4];
      if UsedOf(w) == 0 || MagicOf(w) != CHUNK_MAGIC {
        return;
      }
      var z := ZoneFor(ChunkSize(SizeOf(w)));
      if z < 0 || z >= ZONE_COUNT || SizeOf(w) > ZoneLimit(z) {
        return;
      }
      StoreWordAt(c, HeaderWord(0, 0));
      freeLists := freeLists[z := freeLists[z] + [c]];
      live := live - {c};
    }

    /** mp_check() */
    method CheckBlock(ptr: int) returns (r: CheckResult)
      requires Outside(St(), ptr) || BLOCK <= ptr
      ensures r == Check(St(), ptr)
      ensures Valid() && (HandedOut(St(), ptr) || Outside(St(), ptr)) ==>
                r == if Outside(St(), ptr) then InvalidPointer else if ptr - BLOCK in live then CheckOk else InvalidData
    {
      hide Inv, ZoneFor;
      if Valid() && HandedOut(St(), ptr) {
        HandedOutInPool(St(), ptr);
        CheckExact(St(), ptr);
      }
      if ptr < 0 || ptr >= buffer.Length {
        return InvalidPointer;
      }
      var c := ptr - BLOCK;
      var w := buffer[c..c + 4];
      if MagicOf(w) != CHUNK_MAGIC || UsedOf(w) == 0 {
        return InvalidData;
      }
      var z := ZoneFor(ChunkSize(SizeOf(w)));
      if z < 0 || z >= ZONE_COUNT || SizeOf(w) > ZoneLimit(z) {
        return InvalidData;
      }
      if !HasWord(buffer[..], ptr - GUARD_SIZE, GUARD) {
        return Underflow;
      }
      if !HasWord(buffer[..], ptr + SizeOf(w), GUARD) {
        return Overflow;
      }
      return CheckOk;
    }
  }
}
