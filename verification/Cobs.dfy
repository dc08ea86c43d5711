/**
Consistent overhead byte stuffing (src/common/cobs.c): a packet is cut into blocks at its zero
bytes, and each block is preceded by a code, so that no byte of the encoding is zero.
*/
module Cobs {
  import opened Config

  type Byte = int

  /** A code of 0xFF stands for 254 bytes that no zero follows. */
  const FULL := 254

  ghost predicate AreBytes(s: seq<Byte>) {
    forall i :: 0 <= i < |s| ==> 0 <= s[i] < 256
  }

  ghost predicate NoZeros(s: seq<Byte>) {
    forall i :: 0 <= i < |s| ==> 0 < s[i] < 256
  }

  /** The encoding of what is left of a packet, when `block` is the block begun and not yet written. */
  function EncodeFrom(block: seq<Byte>, rest: seq<Byte>): seq<Byte>
    decreases |rest|, |block|
  {
    if rest == [] then Coded(block)
    else if |block| >= FULL then Coded(block) + EncodeFrom([], rest)
    else if rest[0] != 0 then EncodeFrom(block + [rest[0]], rest[1..])
    else Coded(block) + EncodeFrom([], rest[1..])
  }

  function Coded(block: seq<Byte>): seq<Byte> {
    [|block| + 1] + block
  }

  function Encode(s: seq<Byte>): seq<Byte> {
    EncodeFrom([], s)
  }

  /** The rest of a decoding: `copy` bytes of the current block are still to be copied. */
  function DecodeFrom(s: seq<Byte>, code: int, copy: int): seq<Byte>
    decreases |s|
  {
    if s == [] then []
    else if copy != 0 then [s[0]] + DecodeFrom(s[1..], code, copy - 1)
    else
      (if code != 255 then [0] else []) +
      (if s[0] == 0 then [] else DecodeFrom(s[1..], s[0], s[0] - 1))
  }

  function Decode(s: seq<Byte>): seq<Byte> {
    DecodeFrom(s, 255, 0)
  }

  // ----- What holds of them

  lemma {:induction false} DecodeCopies(block: seq<Byte>, rest: seq<Byte>, code: int)
    ensures DecodeFrom(block + rest, code, |block|) == block + DecodeFrom(rest, code, 0)
  {
    if block == [] {
      assert block + rest == rest;
    } else {
      DecodeCopies(block[1..], rest, code);
      assert (block + rest)[1..] == block[1..] + rest;
      var later := DecodeFrom(rest, code, 0);
      Associates([block[0]], block[1..], later);
      assert block == [block[0]] + block[1..];
    }
  }

  lemma DecodeBlock(block: seq<Byte>, rest: seq<Byte>, code: int)
    ensures DecodeFrom(Coded(block) + rest, code, 0) ==
            (if code != 255 then [0] else []) + (block + DecodeFrom(rest, |block| + 1, 0))
  {
    var s := Coded(block) + rest;
    assert s[0] == |block| + 1 && s[1..] == block + rest;
    DecodeCopies(block, rest, |block| + 1);
  }

  lemma {:induction false} RoundTripFrom(block: seq<Byte>, rest: seq<Byte>, code: int)
    requires |block| <= FULL
    ensures DecodeFrom(EncodeFrom(block, rest), code, 0) == (if code != 255 then [0] else []) + (block + rest)
    decreases |rest|, |block|
  {
    if rest == [] {
      assert Coded(block) + [] == Coded(block);
      DecodeBlock(block, [], code);
    } else if |block| >= FULL {
      DecodeBlock(block, EncodeFrom([], rest), code);
      RoundTripFrom([], rest, 255);
      assert [] + ([] + rest) == rest;
    } else if rest[0] != 0 {
      RoundTripFrom(block + [rest[0]], rest[1..], code);
      assert block + [rest[0]] + rest[1..] == block + rest;
    } else {
      DecodeBlock(block, EncodeFrom([], rest[1..]), code);
      RoundTripFrom([], rest[1..], |block| + 1);
      assert rest == [0] + ([] + rest[1..]);
    }
  }

  /** Decoding undoes encoding, for every packet. */
  lemma RoundTrip(s: seq<Byte>)
    ensures Decode(Encode(s)) == s
  {
    RoundTripFrom([], s, 255);
    assert [] + ([] + s) == s;
  }

  lemma {:induction false} EncodeCollects(block: seq<Byte>, run: seq<Byte>, rest: seq<Byte>)
    requires |block| + |run| <= FULL && 0 !in run
    ensures EncodeFrom(block, run + rest) == EncodeFrom(block + run, rest)
    decreases |run|
  {
    if run == [] {
      assert run + rest == rest && block + run == block;
    } else {
      var b := run[0];
      assert b in run && (run + rest)[0] == b && (run + rest)[1..] == run[1..] + rest;
      assert forall x :: x in run[1..] ==> x in run;
      EncodeCollects(block + [b], run[1..], rest);
      assert block + [b] + run[1..] == block + run;
    }
  }

  /**
  What the encoding is, without a notion of a block begun: if the next zero, or the end, comes after
  k bytes, and k is less than 254, the code is k + 1 and stands for those bytes and the zero; if not,
  the code is 255 and stands for 254 bytes and no zero.
  */
  lemma EncodeNext(s: seq<Byte>, k: nat)
    requires k <= |s| && 0 !in s[..k] && (k < |s| ==> s[k] == 0)
    ensures Encode(s) ==
            if k < FULL && k == |s| then [k + 1] + s
            else if k < FULL then [k + 1] + s[..k] + Encode(s[k + 1..])
            else if |s| == FULL then [255] + s
            else [255] + s[..FULL] + Encode(s[FULL..])
  {
    var n := if k < FULL then k else FULL;
    assert forall x :: x in s[..n] ==> x in s[..k];
    EncodeCollects([], s[..n], s[n..]);
    assert s[..n] + s[n..] == s && [] + s[..n] == s[..n];
    if n < |s| {
      if k < FULL {
        assert s[n..][1..] == s[k + 1..];
      }
    } else {
      assert s[..n] == s && s[n..] == [];
    }
  }

  lemma {:induction false} EncodeFromNoZeros(block: seq<Byte>, rest: seq<Byte>)
    requires |block| <= FULL && NoZeros(block) && AreBytes(rest)
    ensures NoZeros(EncodeFrom(block, rest))
    decreases |rest|, |block|
  {
    if rest != [] {
      if |block| >= FULL {
        EncodeFromNoZeros([], rest);
      } else if rest[0] != 0 {
        EncodeFromNoZeros(block + [rest[0]], rest[1..]);
      } else {
        EncodeFromNoZeros([], rest[1..]);
      }
    }
  }

  /** No byte of an encoding is zero. */
  lemma EncodeNoZeros(s: seq<Byte>)
    requires AreBytes(s)
    ensures NoZeros(Encode(s))
  {
    EncodeFromNoZeros([], s);
  }

  /** The overhead is one byte, and one more for each 254 bytes after the first. */
  function Bound(n: int): int {
    if n == 0 then 1 else n + 1 + (n - 1) / FULL
  }

  lemma {:induction false} EncodeFromLength(block: seq<Byte>, rest: seq<Byte>)
    requires |block| <= FULL
    ensures |block| + |rest| < |EncodeFrom(block, rest)| <= Bound(|block| + |rest|)
    decreases |rest|, |block|
  {
    if rest != [] {
      if |block| >= FULL {
        EncodeFromLength([], rest);
      } else if rest[0] != 0 {
        EncodeFromLength(block + [rest[0]], rest[1..]);
      } else {
        EncodeFromLength([], rest[1..]);
      }
    }
  }

  lemma EncodeLength(s: seq<Byte>)
    ensures |s| < |Encode(s)| <= Bound(|s|)
  {
    EncodeFromLength([], s);
  }

  /** Whatever the input, its decoding is shorter. */
  lemma {:induction false} DecodeFromLength(s: seq<Byte>, code: int, copy: int)
    ensures |DecodeFrom(s, code, copy)| <= |s|
    ensures s != [] && copy == 0 && code == 255 ==> |DecodeFrom(s, code, copy)| < |s|
    decreases |s|
  {
    if s != [] {
      if copy != 0 {
        DecodeFromLength(s[1..], code, copy - 1);
      } else if s[0] != 0 {
        DecodeFromLength(s[1..], s[0], s[0] - 1);
      }
    }
  }

  lemma DecodeLength(s: seq<Byte>)
    ensures s != [] ==> |Decode(s)| < |s|
    ensures s == [] ==> Decode(s) == []
  {
    DecodeFromLength(s, 255, 0);
  }

  // ----- The code

  /** finish_block(): the code goes where its place was kept. */
  method FinishBlock(dst: array<Byte>, at: int, code: int, ghost block: seq<Byte>)
    requires 0 <= at && at + code <= dst.Length && code == |block| + 1 && dst[at + 1..at + code] == block
    modifies dst
    ensures dst[..at + code] == old(dst[..at]) + Coded(block)
    ensures forall k :: at + code <= k < dst.Length ==> dst[k] == old(dst[k])
  {
    dst[at] := code;
    assert dst[..at + code] == dst[..at] + [dst[at]] + dst[at + 1..at + code];
  }

  /** A byte of the block goes behind those already there. */
  method StoreByte(dst: array<Byte>, at: int, code: int, c: Byte, ghost block: seq<Byte>)
    requires 0 <= at < at + code < dst.Length && dst[at + 1..at + code] == block
    modifies dst
    ensures dst[..at] == old(dst[..at]) && dst[at + 1..at + code + 1] == block + [c]
    ensures forall k :: at + code < k < dst.Length ==> dst[k] == old(dst[k])
  {
    dst[at + code] := c;
    assert dst[at + 1..at + code + 1] == block + [c];
  }

  /** What the encoder has still to write. */
  lemma EncodeTurn(block: seq<Byte>, rest: seq<Byte>)
    requires |block| <= FULL && rest != []
    ensures EncodeFrom(block, rest) ==
            if |block| == FULL then Coded(block) + EncodeFrom([], rest)
            else if rest[0] != 0 then EncodeFrom(block + [rest[0]], rest[1..])
            else Coded(block) + EncodeFrom([], rest[1..])
    ensures |EncodeFrom(block, rest)| > |block| + 1
  {
    EncodeFromLength(block, rest);
  }

  /** cobs_encode() */
  method EncodeInto(src: seq<Byte>, dst: array<Byte>) returns (n: int)
    requires AreBytes(src) && Bound(|src|) <= dst.Length
    modifies dst
    ensures 0 <= n <= dst.Length && dst[..n] == Encode(src)
    ensures forall k :: n <= k < dst.Length ==> dst[k] == old(dst[k])
  {
    EncodeLength(src);
    hide EncodeFrom, Bound;
    var i, at, code := 0, 0, 1;
    ghost var block, rest, done: seq<Byte> := [], src, [];
    while i < |src|
      invariant 0 <= i <= |src| && rest == src[i..] && 0 <= at && at + code <= |Encode(src)| && code == |block| + 1 <= 255
      invariant done == dst[..at] && done + EncodeFrom(block, rest) == Encode(src)
      invariant dst[at + 1..at + code] == block
      invariant forall k :: |Encode(src)| <= k < dst.Length ==> dst[k] == old(dst[k])
      decreases |src| - i, code
    {
      EncodeTurn(block, rest);
      NextSuffix(src, i);
      if code != 255 {
        var c := src[i];
        i := i + 1;
        rest := rest[1..];
        if c != 0 {
          StoreByte(dst, at, code, c, block);
          code, block := code + 1, block + [c];
          continue;
        }
      }
      FinishBlock(dst, at, code, block);
      Associates(done, Coded(block), EncodeFrom([], rest));
      done := done + Coded(block);
      EncodeFromLength([], rest);
      at, code, block := at + code, 1, [];
    }
    LastBlock(block);
    FinishBlock(dst, at, code, block);
    n := at + code;
  }

  lemma LastBlock(block: seq<Byte>)
    ensures EncodeFrom(block, []) == Coded(block)
  {
  }

  /** What the decoder has still to write. */
  lemma DecodeTurn(s: seq<Byte>, code: int, copy: int)
    requires s != []
    ensures DecodeFrom(s, code, copy) ==
            if copy != 0 then [s[0]] + DecodeFrom(s[1..], code, copy - 1)
            else (if code != 255 then [0] else []) + (if s[0] == 0 then [] else DecodeFrom(s[1..], s[0], s[0] - 1))
  {
  }

  /** One byte more of the output. */
  method PutByte(dst: array<Byte>, n: int, b: Byte, ghost done: seq<Byte>)
    requires 0 <= n < dst.Length && done == dst[..n]
    modifies dst
    ensures done + [b] == dst[..n + 1]
    ensures forall k :: n < k < dst.Length ==> dst[k] == old(dst[k])
  {
    dst[n] := b;
  }

  /** cobs_decode(): never reads past its input, nor writes more bytes than it has. */
  method DecodeInto(src: seq<Byte>, dst: array<Byte>) returns (n: int)
    requires AreBytes(src) && |src| <= dst.Length
    modifies dst
    ensures 0 <= n <= |src| && dst[..n] == Decode(src)
    ensures forall k :: n <= k < dst.Length ==> dst[k] == old(dst[k])
  {
    hide DecodeFrom;
    var i, code, copy := 0, 255, 0;
    n := 0;
    ghost var rest, done: seq<Byte> := src, [];
    while i < |src|
      invariant 0 <= n <= i <= |src| && rest == src[i..] && 0 <= copy < 256 && 0 < code < 256
      invariant if i == 0 then code == 255 && copy == 0 else n < i
      invariant done == dst[..n] && done + DecodeFrom(rest, code, copy) == Decode(src)
      invariant forall k :: n <= k < dst.Length ==> dst[k] == old(dst[k])
    {
      DecodeTurn(rest, code, copy);
      NextSuffix(src, i);
      if copy != 0 {
        PutByte(dst, n, src[i], done);
        n, i := n + 1, i + 1;
        Associates(done, [rest[0]], DecodeFrom(rest[1..], code, copy - 1));
        done := done + [rest[0]];
      } else {
        if code != 255 {
          PutByte(dst, n, 0, done);
          n := n + 1;
          Associates(done, [0], if rest[0] == 0 then [] else DecodeFrom(rest[1..], rest[0], rest[0] - 1));
          done := done + [0];
        }
        code, copy := src[i], src[i];
        i := i + 1;
        if code == 0 {
          break;
        }
      }
      rest := rest[1..];
      copy := copy - 1;
    }
    if i == |src| && code != 0 {
      NothingLeft(code, copy);
    }
  }

  lemma NothingLeft(code: int, copy: int)
    ensures DecodeFrom([], code, copy) == []
  {
  }
}
