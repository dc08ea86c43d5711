/**
The streaming part of MD5 (src/common/md5.c): buffering, counting and padding, around a block
transform that is taken as given.  Sections 3.1 and 3.2 of RFC 1321 define the padding.
*/
module Md5 {
  import Config

  type Byte = int

  /** Four 32-bit words. */
  type Words = seq<int>

  const BLOCK := 64
  const WORD_MODULUS := 0x1_0000_0000
  const COUNT_MODULUS := 0x1_0000_0000_0000_0000
  const INITIAL: Words := [0x67452301, 0xEFCDAB89, 0x98BADCFE, 0x10325476]

  // ----- The meaning: the transform folded over the blocks of the padded message

  /** What is left over at the end does not count. */
  function Fold(transform: (Words, seq<Byte>) -> Words, s: Words, m: seq<Byte>): Words
    decreases |m|
  {
    if |m| < BLOCK then s else Fold(transform, transform(s, m[..BLOCK]), m[BLOCK..])
  }

  /** MD5Encode() */
  function EncodeWords(w: Words): (b: seq<Byte>)
    ensures |b| == 4 * |w|
  {
    if w == [] then [] else
      [w[0] % 256, w[0] / 256 % 256, w[0] / 65536 % 256, w[0] / 16777216 % 256] + EncodeWords(w[1..])
  }

  /** MD5Decode() */
  function DecodeWords(b: seq<Byte>): Words
    decreases |b|
  {
    if |b| < 4 then [] else [b[0] + 256 * b[1] + 65536 * b[2] + 16777216 * b[3]] + DecodeWords(b[4..])
  }

  lemma {:induction false} WordsRoundTrip(w: Words)
    requires forall i :: 0 <= i < |w| ==> 0 <= w[i] < WORD_MODULUS
    ensures DecodeWords(EncodeWords(w)) == w
  {
    if w != [] {
      var b := EncodeWords(w);
      assert b[4..] == EncodeWords(w[1..]);
      WordsRoundTrip(w[1..]);
      var n := w[0];
      var p, q, r := n / 256, n / 65536, n / 16777216;
      assert n == 256 * p + n % 256 && q == p / 256 && r == q / 256;
      assert p == 256 * q + p % 256 && q == 256 * r + q % 256;
      assert DecodeWords(b)[0] == n;
    }
  }

  /** A one bit, and zeros until eight bytes short of a whole block. */
  function PadLength(n: int): int {
    if n % BLOCK < 56 then 56 - n % BLOCK else 120 - n % BLOCK
  }

  lemma PadLengthExact(n: int)
    requires n >= 0
    ensures 1 <= PadLength(n) <= BLOCK && (n + PadLength(n)) % BLOCK == 56
  {
  }

  function Padding(k: int): (p: seq<Byte>)
    requires k >= 1
    ensures |p| == k
  {
    [0x80] + seq(k - 1, i => 0)
  }

  /** The number of bits in two words, the low one first. */
  function BitCount(n: int): (c: Words)
    ensures |c| == 2
  {
    [8 * n % WORD_MODULUS, 8 * n / WORD_MODULUS % WORD_MODULUS]
  }

  /** The two words are the number of bits modulo 2^64. */
  lemma CountIs64Bits(n: int)
    requires n >= 0
    ensures BitCount(n)[0] + WORD_MODULUS * BitCount(n)[1] == 8 * n % COUNT_MODULUS
  {
  }

  function Padded(m: seq<Byte>): seq<Byte> {
    PadLengthExact(|m|);
    m + Padding(PadLength(|m|)) + EncodeWords(BitCount(|m|))
  }

  function Digest(transform: (Words, seq<Byte>) -> Words, m: seq<Byte>): seq<Byte> {
    EncodeWords(Fold(transform, INITIAL, Padded(m)))
  }

  lemma PaddedIsWhole(m: seq<Byte>)
    ensures |Padded(m)| % BLOCK == 0 && m <= Padded(m)
  {
    PadLengthExact(|m|);
    WholeLength(|m|, PadLength(|m|));
    hide EncodeWords, PadLength;
    assert m + Padding(PadLength(|m|)) + EncodeWords(BitCount(|m|)) == m + (Padding(PadLength(|m|)) + EncodeWords(BitCount(|m|)));
  }

  lemma WholeLength(n: int, k: int)
    requires (n + k) % BLOCK == 56
    ensures (n + k + 8) % BLOCK == 0
  {
  }

  // ----- The padding and the digest, byte by byte

  /** 256^j */
  function Pow256(j: nat): (p: int)
    ensures p > 0
  {
    if j == 0 then 1 else 256 * Pow256(j - 1)
  }

  /** The powers that occur. */
  lemma Powers(j: nat)
    requires j < 8
    ensures Pow256(j) == if j == 0 then 1 else if j == 1 then 0x100 else if j == 2 then 0x1_0000 else if j == 3 then 0x100_0000
                         else if j == 4 then 0x1_0000_0000 else if j == 5 then 0x100_0000_0000
                         else if j == 6 then 0x1_0000_0000_0000 else 0x100_0000_0000_0000
  {
    assert Pow256(1) == 256 * Pow256(0);
    assert Pow256(2) == 256 * Pow256(1);
    assert Pow256(3) == 256 * Pow256(2);
    assert Pow256(4) == 256 * Pow256(3);
    assert Pow256(5) == 256 * Pow256(4);
    assert Pow256(6) == 256 * Pow256(5);
    assert Pow256(7) == 256 * Pow256(6);
  }

  /**
  The message m padded as sections 3.1 and 3.2 of RFC 1321 say: the byte 0x80, as few zeros as give
  whole blocks, and the number of bits in eight bytes, low byte first.
  */
  ghost predicate IsPadded(p: seq<Byte>, m: seq<Byte>) {
    && |p| % BLOCK == 0 && |m| + 9 <= |p| < |m| + 9 + BLOCK
    && (forall i :: 0 <= i < |m| ==> p[i] == m[i])
    && p[|m|] == 0x80
    && (forall i :: |m| < i < |p| - 8 ==> p[i] == 0)
    && (forall i :: |p| - 8 <= i < |p| ==> p[i] == 8 * |m| / Pow256(i - (|p| - 8)) % 256)
  }

  /** The bytes of words: each word low byte first. */
  lemma {:induction false} EncodedByte(w: Words, i: nat, j: nat)
    requires i < |w| && j < 4
    ensures EncodeWords(w)[4 * i + j] == w[i] / Pow256(j) % 256
  {
    Powers(j);
    if i > 0 {
      EncodedByte(w[1..], i - 1, j);
      assert EncodeWords(w)[4 * i + j] == EncodeWords(w[1..])[4 * (i - 1) + j];
    }
  }

  /** A byte of the low word of n is a byte of n: the high word starts a whole number of bytes further up. */
  lemma ByteOfLowWord(n: int, q: int, r: int, d: int, e: int)
    requires d > 0 && 0 <= r && n == q * (d * (256 * e)) + r
    ensures r / d % 256 == n / d % 256
  {
    var k, f := r / d, 256 * e;
    assert r == d * k + r % d;
    assert n == d * (q * f + k) + r % d by {
      assert q * (d * f) == d * (q * f);
      assert d * (q * f + k) == d * (q * f) + d * k;
    }
    assert (q * f + k) * d == d * (q * f + k);
    Config.QuotientUnique(n, d, q * f + k);
    assert q * f + k == 256 * (q * e) + k by {
      assert q * (256 * e) == 256 * (q * e);
    }
  }

  lemma LowWordByte(n: int, j: nat)
    requires n >= 0 && j < 4
    ensures n % WORD_MODULUS / Pow256(j) % 256 == n / Pow256(j) % 256
  {
    Powers(j);
    var e := if j == 0 then 0x100_0000 else if j == 1 then 0x1_0000 else if j == 2 then 0x100 else 1;
    assert Pow256(j) * (256 * e) == WORD_MODULUS;
    ByteOfLowWord(n, n / WORD_MODULUS, n % WORD_MODULUS, Pow256(j), e);
  }

  lemma HighWordByte(n: int, j: nat)
    requires n >= 0 && j < 4
    ensures n / WORD_MODULUS % WORD_MODULUS / Pow256(j) % 256 == n / Pow256(j + 4) % 256
  {
    LowWordByte(n / WORD_MODULUS, j);
    Powers(j);
    Powers(j + 4);
    QuotientTwice(n, WORD_MODULUS, Pow256(j));
    assert WORD_MODULUS * Pow256(j) == Pow256(j + 4);
  }

  lemma QuotientTwice(n: int, a: int, b: int)
    requires a > 0 && b > 0
    ensures a * b > 0 && n / a / b == n / (a * b)
  {
    var q, r := n / a, n % a;
    var k, t := q / b, q % b;
    assert n == a * q + r && q == b * k + t;
    Distribute(a, b * k, t);
    Associate(a, b, k);
    assert n == (a * b) * k + (a * t + r);
    AtMost(a, t + 1, b);
    Distribute(a, t, 1);
    assert 0 <= a * t + r < a * b;
    Config.QuotientUnique(n, a * b, k);
  }

  lemma Distribute(a: int, b: int, c: int)
    ensures a * (b + c) == a * b + a * c
  {
  }

  lemma Associate(a: int, b: int, c: int)
    ensures a * (b * c) == a * b * c
  {
  }

  lemma AtMost(a: int, b: int, c: int)
    requires a > 0 && b <= c
    ensures a * b <= a * c
  {
  }

  lemma BitCountByte(n: int, j: nat)
    requires n >= 0 && j < 8
    ensures EncodeWords(BitCount(n))[j] == 8 * n / Pow256(j) % 256
  {
    if j < 4 {
      EncodedByte(BitCount(n), 0, j);
      LowWordByte(8 * n, j);
    } else {
      EncodedByte(BitCount(n), 1, j - 4);
      HighWordByte(8 * n, j - 4);
    }
  }

  lemma PaddedHasForm(m: seq<Byte>)
    ensures IsPadded(Padded(m), m)
  {
    var n, k := |m|, PadLength(|m|);
    PaddedIsWhole(m);
    PadLengthExact(n);
    hide EncodeWords, BitCount, PadLength;
    var p := Padded(m);
    assert |p| == n + k + 8 && p[n..n + k] == Padding(k) && p[n + k..] == EncodeWords(BitCount(n));
    forall i | |p| - 8 <= i < |p|
      ensures p[i] == 8 * n / Pow256(i - (|p| - 8)) % 256
    {
      assert p[i] == p[n + k..][i - (n + k)];
      BitCountByte(n, i - (n + k));
    }
    assert p[n] == p[n..n + k][0];
    forall i | n < i < |p| - 8
      ensures p[i] == 0
    {
      assert p[i] == p[n..n + k][i - n];
    }
  }

  /** The padding leaves no choice, and the code makes it. */
  lemma PaddedExact(m: seq<Byte>, p: seq<Byte>)
    ensures IsPadded(p, m) <==> p == Padded(m)
  {
    PaddedHasForm(m);
    hide Padded;
    if IsPadded(p, m) {
      SamePadding(p, Padded(m), m);
    }
  }

  lemma SamePadding(p: seq<Byte>, q: seq<Byte>, m: seq<Byte>)
    requires IsPadded(p, m) && IsPadded(q, m)
    ensures p == q
  {
    hide Pow256;
    assert |p| == |q|;
    forall i | 0 <= i < |p|
      ensures p[i] == q[i]
    {
    }
  }

  /** Section 3.3 of RFC 1321 gives the first state as bytes. */
  lemma InitialBytes()
    ensures EncodeWords(INITIAL) == [0x01, 0x23, 0x45, 0x67, 0x89, 0xAB, 0xCD, 0xEF, 0xFE, 0xDC, 0xBA, 0x98, 0x76, 0x54, 0x32, 0x10]
  {
    assert INITIAL[1..] == [0xEFCDAB89, 0x98BADCFE, 0x10325476];
    assert INITIAL[1..][1..] == [0x98BADCFE, 0x10325476];
    assert INITIAL[1..][1..][1..] == [0x10325476];
    assert INITIAL[1..][1..][1..][1..] == [];
    assert EncodeWords([0x10325476]) == [0x76, 0x54, 0x32, 0x10];
    assert EncodeWords([0x98BADCFE, 0x10325476]) == [0xFE, 0xDC, 0xBA, 0x98] + [0x76, 0x54, 0x32, 0x10];
    assert EncodeWords(INITIAL[1..]) == [0x89, 0xAB, 0xCD, 0xEF] + ([0xFE, 0xDC, 0xBA, 0x98] + [0x76, 0x54, 0x32, 0x10]);
  }

  lemma {:induction false} FoldAppend(transform: (Words, seq<Byte>) -> Words, s: Words, a: seq<Byte>, b: seq<Byte>)
    requires |a| % BLOCK == 0
    ensures Fold(transform, s, a + b) == Fold(transform, Fold(transform, s, a), b)
    decreases |a|
  {
    if a == [] {
      assert a + b == b;
    } else {
      assert (a + b)[..BLOCK] == a[..BLOCK] && (a + b)[BLOCK..] == a[BLOCK..] + b;
      FoldAppend(transform, transform(s, a[..BLOCK]), a[BLOCK..], b);
    }
  }

  /** One more block. */
  lemma FoldBlock(transform: (Words, seq<Byte>) -> Words, s: Words, a: seq<Byte>, b: seq<Byte>)
    requires |a| % BLOCK == 0 && |b| == BLOCK
    ensures Fold(transform, s, a + b) == transform(Fold(transform, s, a), b)
  {
    FoldAppend(transform, s, a, b);
    assert b[..BLOCK] == b;
  }

  lemma FoldRest(transform: (Words, seq<Byte>) -> Words, s: Words, a: seq<Byte>, b: seq<Byte>)
    requires |a| % BLOCK == 0 && |b| < BLOCK
    ensures Fold(transform, s, a + b) == Fold(transform, s, a)
  {
    FoldAppend(transform, s, a, b);
  }

  /** How much of a message lies beyond its whole blocks. */
  function TailLength(n: int): int {
    n % BLOCK
  }

  function TailOf(m: seq<Byte>): (tail: seq<Byte>)
    ensures |tail| == TailLength(|m|)
  {
    m[|m| - |m| % BLOCK..]
  }

  // ----- The block loop, in 32-bit arithmetic

  /** The test of the loop: i + 64 <= inputlen, where the sum wraps. */
  predicate MoreBlocks(i: int, n: int) {
    (i + BLOCK) % WORD_MODULUS <= n
  }

  /** Where the loop comes past, in an input of n bytes that follows `index` bytes in the buffer. */
  predicate Visited(index: int, n: int, i: int) {
    0 <= i <= n && (index + i) % BLOCK == 0
  }

  /** No sum wraps: the last whole block of the input does not end within 64 bytes of 2^32. */
  predicate LoopStops(index: int, n: int) {
    index + n < BLOCK || n - (index + n) % BLOCK < WORD_MODULUS - BLOCK
  }

  /** The test says whether there is another block, wherever the loop comes, exactly if no sum wraps. */
  lemma LoopStopsExact(index: int, n: int)
    requires 0 <= index < BLOCK && BLOCK - index <= n < WORD_MODULUS
    ensures (forall i :: Visited(index, n, i) ==> (MoreBlocks(i, n) <==> i + BLOCK <= n)) <==> LoopStops(index, n)
  {
    var last := n - (index + n) % BLOCK;
    LastBlock(index, n, last);
    if LoopStops(index, n) {
      forall i | Visited(index, n, i)
        ensures MoreBlocks(i, n) <==> i + BLOCK <= n
      {
        LastBlock(index, n, i);
      }
    } else {
      assert (last + BLOCK) % WORD_MODULUS == last + BLOCK - WORD_MODULUS;
      assert Visited(index, n, last) && MoreBlocks(last, n) && last + BLOCK > n;
    }
  }

  lemma LastBlock(index: int, n: int, i: int)
    requires 0 <= index < BLOCK && BLOCK - index <= n
    ensures Visited(index, n, n - (index + n) % BLOCK)
    ensures Visited(index, n, i) ==> (i + BLOCK > n <==> i == n - (index + n) % BLOCK)
  {
    var r := (index + n) % BLOCK;
    var q := (index + n) / BLOCK;
    assert index + n == q * BLOCK + r;
    if Visited(index, n, i) {
      var p := (index + i) / BLOCK;
      assert index + i == p * BLOCK;
    }
  }

  /** It does go wrong: of 2^32 - 1 bytes, into an empty buffer, the loop takes a block beyond the end. */
  lemma LoopOverruns()
    ensures var n, i := WORD_MODULUS - 1, WORD_MODULUS - BLOCK;
            Visited(0, n, i) && i + BLOCK > n && MoreBlocks(i, n) && !LoopStops(0, n)
  {
  }

  // ----- Counting bits in two words

  /** The two words of the count after `added` more bytes, as MD5Update() computes them. */
  function Counted(c0: int, c1: int, added: int): (int, int) {
    var shifted := added * 8 % WORD_MODULUS;
    var n0 := (c0 + shifted) % WORD_MODULUS;
    var n1 := (c1 + (if n0 < shifted then 1 else 0)) % WORD_MODULUS;
    (n0, (n1 + added / 0x2000_0000) % WORD_MODULUS)
  }

  /** The carry is right: the two words hold the bit count modulo 2^64. */
  lemma CountedExact(n: int, added: int)
    requires n >= 0 && 0 <= added < WORD_MODULUS
    ensures var c := BitCount(n); var d := Counted(c[0], c[1], added);
            d.0 == BitCount(n + added)[0] && d.1 == BitCount(n + added)[1]
  {
    var q, c0 := 8 * n / WORD_MODULUS, 8 * n % WORD_MODULUS;
    var high, low := added / 0x2000_0000, added * 8 % WORD_MODULUS;
    ShiftedParts(added);
    var carry := if c0 + low >= WORD_MODULUS then 1 else 0;
    var sum := c0 + low - carry * WORD_MODULUS;
    WordParts(8 * (n + added), q + high + carry, sum);
    WordParts(c0 + low, carry, sum);
    HighWord(q, carry, high);
  }

  lemma WordParts(x: int, q: int, r: int)
    requires x == q * WORD_MODULUS + r && 0 <= r < WORD_MODULUS
    ensures x % WORD_MODULUS == r && x / WORD_MODULUS == q
  {
  }

  lemma ShiftedParts(added: int)
    requires 0 <= added < WORD_MODULUS
    ensures 0 <= added / 0x2000_0000 < 8
    ensures 8 * added == added / 0x2000_0000 * WORD_MODULUS + added * 8 % WORD_MODULUS
  {
  }

  lemma HighWord(q: int, carry: int, high: int)
    requires 0 <= carry <= 1 && 0 <= high < 8
    ensures ((q % WORD_MODULUS + carry) % WORD_MODULUS + high) % WORD_MODULUS == (q + high + carry) % WORD_MODULUS
  {
  }

  /** The byte index shows in the low word. */
  lemma IndexShows(n: int)
    requires n >= 0
    ensures BitCount(n)[0] / 8 % BLOCK == TailLength(n)
  {
    var q, r := 8 * n / WORD_MODULUS, 8 * n % WORD_MODULUS;
    assert 8 * n == q * WORD_MODULUS + r;
    var c := n - q * 0x2000_0000;
    assert r == 8 * c;
    SameLowBits(q, c);
  }

  lemma SameLowBits(q: int, c: int)
    ensures (q * 0x2000_0000 + c) % BLOCK == c % BLOCK
  {
    assert q * 0x2000_0000 == BLOCK * (q * 0x80_0000);
  }

  // ----- The code

  class Context {
    const transform: (Words, seq<Byte>) -> Words   // MD5Transform()
    var state: Words
    var count0: int
    var count1: int
    const buffer: array<Byte>
    ghost var message: seq<Byte>                   // everything put in since MD5Init()

    /** The state covers the whole blocks of the message, and the buffer has the rest. */
    ghost predicate Valid()
      reads this, buffer
    {
      && buffer.Length == BLOCK && state == Fold(transform, INITIAL, message)
      && [count0, count1] == BitCount(|message|)
      && buffer[..TailLength(|message|)] == TailOf(message)
    }

    /** MD5Init() */
    constructor (transform: (Words, seq<Byte>) -> Words)
      ensures Valid() && fresh(buffer) && this.transform == transform && message == []
    {
      this.transform := transform;
      state, count0, count1, message := INITIAL, 0, 0, [];
      buffer := new Byte[BLOCK](i => 0);
    }

    /** memcpy() into the buffer. */
    method CopyIn(index: int, data: seq<Byte>)
      requires 0 <= index && index + |data| <= buffer.Length
      modifies buffer
      ensures buffer[..] == old(buffer[..index]) + data + old(buffer[index + |data|..])
    {
      forall i | 0 <= i < |data| {
        buffer[index + i] := data[i];
      }
    }

    /** MD5Update() */
    method Update(input: seq<Byte>)
      requires Valid() && |input| < WORD_MODULUS && LoopStops(TailLength(|message|), |input|)
      modifies this, buffer
      ensures Valid() && message == old(message) + input
    {
      ghost var m := message;
      hide Fold, BitCount, Counted, TailLength, TailOf, LoopStops;
      IndexShows(|m|);
      TailFits(|m|);
      CountedExact(|m|, |input|);
      var index := count0 / 8 % BLOCK;
      var partLen := BLOCK - index;
      Count(|input|);
      var i := 0;
      if |input| >= partLen {
        FillBlock(m, index, input[..partLen]);
        i := Blocks(m, input, partLen);
        index := 0;
      } else {
        assert m + input[..0] == m;
      }
      KeepRest(m, input, i, index);
    }

    /** What is left of the input waits in the buffer. */
    method KeepRest(ghost m: seq<Byte>, input: seq<Byte>, i: int, index: int)
      requires buffer.Length == BLOCK && 0 <= i <= |input| && [count0, count1] == BitCount(|m| + |input|)
      requires state == Fold(transform, INITIAL, m + input[..i])
      requires if i > 0 then (|m| + i) % BLOCK == 0 && |input| < i + BLOCK && index == 0
               else index == TailLength(|m|) && index + |input| < BLOCK && buffer[..index] == TailOf(m)
      modifies this`message, buffer
      ensures Valid() && message == m + input
    {
      hide Fold, BitCount, TailLength, TailOf;
      TailAfter(m, input, i, index);
      LeftOver(transform, m + input[..i], input[i..]);
      CopyIn(index, input[i..]);
      message := m + input;
      assert m + input == m + input[..i] + input[i..];
    }

    /** The first block of an update completes what is in the buffer. */
    method FillBlock(ghost m: seq<Byte>, index: int, data: seq<Byte>)
      requires buffer.Length == BLOCK && index == TailLength(|m|) && index + |data| == BLOCK
      requires state == Fold(transform, INITIAL, m) && buffer[..index] == TailOf(m)
      modifies this`state, buffer
      ensures state == Fold(transform, INITIAL, m + data)
    {
      hide Fold, TailLength, TailOf;
      BlockFilled(transform, m, data);
      CopyIn(index, data);
      assert buffer[..] == TailOf(m) + data;
      state := transform(state, buffer[..]);
    }

    /** The loop of MD5Update() over the whole blocks of the input, from position `from`. */
    method Blocks(ghost m: seq<Byte>, input: seq<Byte>, from: int) returns (i: int)
      requires 0 <= from <= |input| < WORD_MODULUS && (|m| + from) % BLOCK == 0
      requires from == BLOCK - TailLength(|m|) && LoopStops(TailLength(|m|), |input|)
      requires state == Fold(transform, INITIAL, m + input[..from])
      modifies this`state
      ensures from <= i <= |input| < i + BLOCK && (|m| + i) % BLOCK == 0
      ensures state == Fold(transform, INITIAL, m + input[..i])
    {
      hide Fold, MoreBlocks, LoopStops;
      ghost var index := TailLength(|m|);
      LoopStopsExact(index, |input|);
      i := from;
      while MoreBlocks(i, |input|)
        invariant from <= i <= |input| && (|m| + i) % BLOCK == 0 && Visited(index, |input|, i)
        invariant state == Fold(transform, INITIAL, m + input[..i])
        decreases |input| - i
      {
        FoldBlock(transform, INITIAL, m + input[..i], input[i..i + BLOCK]);
        assert m + input[..i + BLOCK] == (m + input[..i]) + input[i..i + BLOCK];
        state := transform(state, input[i..i + BLOCK]);
        i := i + BLOCK;
      }
    }

    /** MD5Final() */
    method Final() returns (digest: seq<Byte>)
      requires Valid()
      modifies this, buffer
      ensures digest == Digest(transform, old(message))
      ensures forall p :: IsPadded(p, old(message)) ==> state == Fold(transform, INITIAL, p)
      ensures |digest| == 4 * |state|
      ensures forall i, j :: 0 <= i < |state| && 0 <= j < 4 ==> digest[4 * i + j] == state[i] / Pow256(j) % 256
    {
      hide Fold, BitCount, PadLength;
      ghost var m := message;
      IndexShows(|m|);
      PadLengthExact(|m|);
      var index := count0 / 8 % BLOCK;
      var padLength := PadLength(index);
      PadLengthOfIndex(|m|);
      var bits := Encode([count0, count1]);
      Update(Padding(padLength));
      Update(bits);
      assert message == Padded(m);
      digest := Encode(state);
      hide Padded, IsPadded, EncodeWords, Pow256;
      forall p | IsPadded(p, m)
        ensures p == Padded(m)
      {
        PaddedExact(m, p);
      }
      forall i, j | 0 <= i < |state| && 0 <= j < 4
        ensures digest[4 * i + j] == state[i] / Pow256(j) % 256
      {
        EncodedByte(state, i, j);
      }
    }

    /** The first lines of MD5Update(). */
    method Count(added: int)
      requires 0 <= added < WORD_MODULUS
      modifies this`count0, this`count1
      ensures (count0, count1) == Counted(old(count0), old(count1), added)
    {
      var shifted := added * 8 % WORD_MODULUS;
      count0 := (count0 + shifted) % WORD_MODULUS;
      if count0 < shifted {
        count1 := (count1 + 1) % WORD_MODULUS;
      }
      count1 := (count1 + added / 0x2000_0000) % WORD_MODULUS;
    }
  }

  /** MD5Encode(): each word, low byte first. */
  method Encode(input: Words) returns (output: seq<Byte>)
    ensures output == EncodeWords(input)
  {
    output := [];
    var i := 0;
    while i < |input|
      invariant 0 <= i <= |input| && output + EncodeWords(input[i..]) == EncodeWords(input)
    {
      var w := input[i];
      var four := [w % 256, w / 256 % 256, w / 65536 % 256, w / 16777216 % 256];
      assert EncodeWords(input[i..]) == four + EncodeWords(input[i + 1..]);
      assert output + (four + EncodeWords(input[i + 1..])) == (output + four) + EncodeWords(input[i + 1..]);
      output := output + four;
      i := i + 1;
    }
  }

  /** What did not fill a block is not in the state. */
  lemma LeftOver(transform: (Words, seq<Byte>) -> Words, m: seq<Byte>, input: seq<Byte>)
    requires TailLength(|m|) + |input| < BLOCK
    ensures Fold(transform, INITIAL, m + input) == Fold(transform, INITIAL, m)
  {
    hide Fold;
    var n := |m| - |m| % BLOCK;
    StateOfWhole(transform, m);
    Rejoined(m, input, n);
    FoldRest(transform, INITIAL, m[..n], m[n..] + input);
  }

  lemma Rejoined(m: seq<Byte>, input: seq<Byte>, n: int)
    requires 0 <= n <= |m|
    ensures m + input == m[..n] + (m[n..] + input)
  {
  }

  /** What is in the buffer after an update. */
  lemma TailAfter(m: seq<Byte>, input: seq<Byte>, i: int, index: int)
    requires 0 <= i <= |input|
    requires if i > 0 then (|m| + i) % BLOCK == 0 && |input| < i + BLOCK && index == 0
             else index == TailLength(|m|) && index + |input| < BLOCK
    ensures 0 <= index && index + |input[i..]| < BLOCK && TailLength(|m + input[..i]|) == index
    ensures TailLength(|m + input|) == index + |input[i..]|
    ensures TailOf(m + input) == (if i > 0 then [] else TailOf(m)) + input[i..]
  {
  }

  lemma PadLengthOfIndex(n: int)
    requires n >= 0
    ensures PadLength(n % BLOCK) == PadLength(n)
  {
  }

  function Concat(parts: seq<seq<Byte>>): seq<Byte> {
    if parts == [] then [] else parts[0] + Concat(parts[1..])
  }

  lemma {:induction false} ConcatAppend(parts: seq<seq<Byte>>, part: seq<Byte>)
    ensures Concat(parts + [part]) == Concat(parts) + part
  {
    if parts == [] {
      assert [part][1..] == [] && [] + [part] == [part] && part + [] == part;
    } else {
      ConcatAppend(parts[1..], part);
      assert (parts + [part])[1..] == parts[1..] + [part];
      assert parts[0] + (Concat(parts[1..]) + part) == (parts[0] + Concat(parts[1..])) + part;
    }
  }

  /** However a message is split into updates, the digest is that of the whole, padded as the RFC says. */
  method DigestOfParts(transform: (Words, seq<Byte>) -> Words, parts: seq<seq<Byte>>) returns (digest: seq<Byte>)
    requires forall i :: 0 <= i < |parts| ==>
               |parts[i]| < WORD_MODULUS && LoopStops(TailLength(|Concat(parts[..i])|), |parts[i]|)
    ensures digest == Digest(transform, Concat(parts))
    ensures forall p :: IsPadded(p, Concat(parts)) ==> digest == EncodeWords(Fold(transform, INITIAL, p))
  {
    var context := new Context(transform);
    hide Digest, Fold;
    for i := 0 to |parts|
      invariant context.Valid() && fresh(context) && fresh(context.buffer) && context.transform == transform
      invariant context.message == Concat(parts[..i])
    {
      context.Update(parts[i]);
      ConcatAppend(parts[..i], parts[i]);
      assert parts[..i + 1] == parts[..i] + [parts[i]];
    }
    assert parts[..|parts|] == parts;
    digest := context.Final();
    forall p | IsPadded(p, Concat(parts))
      ensures digest == EncodeWords(Fold(transform, INITIAL, p))
    {
      DigestOfPadded(transform, Concat(parts), p);
    }
  }

  lemma DigestOfPadded(transform: (Words, seq<Byte>) -> Words, m: seq<Byte>, p: seq<Byte>)
    requires IsPadded(p, m)
    ensures Digest(transform, m) == EncodeWords(Fold(transform, INITIAL, p))
  {
    PaddedExact(m, p);
  }

  lemma TailFits(n: int)
    requires n >= 0
    ensures 0 <= TailLength(n) < BLOCK && (n + (BLOCK - TailLength(n))) % BLOCK == 0
  {
  }

  lemma BlockFilled(transform: (Words, seq<Byte>) -> Words, m: seq<Byte>, data: seq<Byte>)
    requires |TailOf(m)| + |data| == BLOCK
    ensures Fold(transform, INITIAL, m + data) == transform(Fold(transform, INITIAL, m), TailOf(m) + data)
  {
    var whole := m[..|m| - |m| % BLOCK];
    StateOfWhole(transform, m);
    assert whole + TailOf(m) == m;
    hide Fold, TailOf;
    FoldBlock(transform, INITIAL, whole, TailOf(m) + data);
    assert whole + (TailOf(m) + data) == (whole + TailOf(m)) + data;
  }

  lemma StateOfWhole(transform: (Words, seq<Byte>) -> Words, m: seq<Byte>)
    ensures var whole := m[..|m| - |m| % BLOCK];
            |whole| % BLOCK == 0 && Fold(transform, INITIAL, m) == Fold(transform, INITIAL, whole)
  {
    var whole, rest := m[..|m| - |m| % BLOCK], m[|m| - |m| % BLOCK..];
    assert m == whole + rest;
    FoldRest(transform, INITIAL, whole, rest);
  }
}
