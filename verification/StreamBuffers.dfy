/**
Stream and message buffers (rtos/source/stream_buffer.c): a ring of bytes with one writer and
one reader.  A message is stored as its length in four bytes, low byte first, and its body.
*/
module StreamBuffers {
  import opened Config
  import opened Rings

  type Byte = int

  /** sbBYTES_TO_STORE_MESSAGE_LENGTH */
  const PREFIX := 4

  const SIZE_MODULUS := 0x1_0000_0000

  /** prvBytesInBuffer() */
  function BytesInBuffer(size: int, head: int, tail: int): int {
    var count := size + head - tail;
    if count >= size then count - size else count
  }

  /** xStreamBufferSpacesAvailable() */
  function SpacesAvailable(size: int, head: int, tail: int): int {
    var space := size + tail - head - 1;
    if space >= size then space - size else space
  }

  /** Used and free bytes always add up to the size less one. */
  lemma UsedAndFree(size: int, head: int, tail: int)
    requires 0 <= head < size && 0 <= tail < size
    ensures 0 <= BytesInBuffer(size, head, tail) < size
    ensures BytesInBuffer(size, head, tail) + SpacesAvailable(size, head, tail) == size - 1
    ensures At(size, tail + BytesInBuffer(size, head, tail)) == head
  {
  }

  /** prvBytesInBuffer() as a size_t of 32 bits computes it. */
  function WrappedBytes(size: int, head: int, tail: int): int {
    var count := (size + head - tail) % SIZE_MODULUS;
    if count >= size then count - size else count
  }

  /** xStreamBufferSpacesAvailable() as a size_t of 32 bits computes it. */
  function WrappedSpaces(size: int, head: int, tail: int): int {
    var space := (size + tail - head - 1) % SIZE_MODULUS;
    if space >= size then space - size else space
  }

  /**
  The sums of the code are right exactly as long as they do not wrap: always when the buffer is
  no larger than half the range of a size_t.
  */
  lemma CountsExact(size: int, head: int, tail: int)
    requires 0 <= head < size < SIZE_MODULUS && 0 <= tail < size
    ensures WrappedBytes(size, head, tail) == BytesInBuffer(size, head, tail) <==> size + head - tail < SIZE_MODULUS
    ensures WrappedSpaces(size, head, tail) == SpacesAvailable(size, head, tail) <==> size + tail - head <= SIZE_MODULUS
    ensures 2 * size <= SIZE_MODULUS ==>
              && WrappedBytes(size, head, tail) == BytesInBuffer(size, head, tail)
              && WrappedSpaces(size, head, tail) == SpacesAvailable(size, head, tail)
  {
    RemainderBelow(size + head - tail);
    RemainderBelow(size + tail - head - 1);
  }

  lemma RemainderBelow(n: int)
    requires 0 <= n < 2 * SIZE_MODULUS
    ensures n % SIZE_MODULUS == if n < SIZE_MODULUS then n else n - SIZE_MODULUS
  {
  }

  /** A buffer of 0x90000000 bytes of which 0x80000000 are used reports 0x10000000. */
  lemma LargeBufferMiscounts()
    ensures BytesInBuffer(0x9000_0000, 0x8000_0000, 0) == 0x8000_0000
    ensures WrappedBytes(0x9000_0000, 0x8000_0000, 0) == 0x1000_0000
  {
  }

  lemma AdvanceHead(size: int, head: int, tail: int, n: int)
    requires 0 <= head < size && 0 <= tail < size && 0 <= n && BytesInBuffer(size, head, tail) + n < size
    ensures 0 <= At(size, head + n) < size
    ensures BytesInBuffer(size, At(size, head + n), tail) == BytesInBuffer(size, head, tail) + n
  {
  }

  lemma AdvanceTail(size: int, head: int, tail: int, n: int)
    requires 0 <= head < size && 0 <= tail < size && 0 <= n <= BytesInBuffer(size, head, tail)
    ensures 0 <= At(size, tail + n) < size
    ensures BytesInBuffer(size, head, At(size, tail + n)) == BytesInBuffer(size, head, tail) - n
  {
  }

  // ----- Messages as bytes

  /** The bytes of a length, low byte first. */
  function LengthBytes(n: int): (p: seq<Byte>)
    ensures |p| == PREFIX
  {
    [n % 256, n / 256 % 256, n / 65536 % 256, n / 16777216 % 256]
  }

  function LengthOf(p: seq<Byte>): int
    requires |p| >= PREFIX
  {
    p[0] + 256 * p[1] + 65536 * p[2] + 16777216 * p[3]
  }

  lemma LengthRoundTrip(n: int)
    requires 0 <= n < SIZE_MODULUS
    ensures LengthOf(LengthBytes(n)) == n
    ensures n < 256 ==> LengthBytes(n) == [n, 0, 0, 0]
  {
    var a, b, c := n / 256, n / 65536, n / 16777216;
    assert n == 256 * a + n % 256 && b == a / 256 && c == b / 256;
    assert a == 256 * b + a % 256 && b == 256 * c + b % 256;
  }

  function Frame(m: seq<Byte>): seq<Byte> {
    LengthBytes(|m|) + m
  }

  /** What a sequence of sends puts into the buffer. */
  function Encode(framed: bool, s: seq<seq<Byte>>): seq<Byte> {
    if s == [] then [] else (if framed then Frame(s[0]) else s[0]) + Encode(framed, s[1..])
  }

  lemma {:induction false} EncodeAppend(framed: bool, s: seq<seq<Byte>>, t: seq<seq<Byte>>)
    ensures Encode(framed, s + t) == Encode(framed, s) + Encode(framed, t)
  {
    if s == [] {
      assert s + t == t;
    } else {
      EncodeAppend(framed, s[1..], t);
      assert (s + t)[0] == s[0] && (s + t)[1..] == s[1..] + t;
      var f := if framed then Frame(s[0]) else s[0];
      hide Frame;
      assert f + (Encode(framed, s[1..]) + Encode(framed, t)) == (f + Encode(framed, s[1..])) + Encode(framed, t);
    }
  }

  lemma EncodeOne(framed: bool, m: seq<Byte>)
    ensures Encode(framed, [m]) == if framed then Frame(m) else m
  {
    assert [m][1..] == [];
    assert Frame(m) + [] == Frame(m) && m + [] == m;
  }

  // ----- Writer and reader, byte by byte

  datatype Writer =
    | WriterIdle
    | Writing(body: seq<Byte>, plan: seq<Byte>, written: int, commit: bool)

  datatype Reader =
    | ReaderIdle
    | Reading(max: int, available: int, got: seq<Byte>)

  datatype State = State(data: seq<Byte>, head: int, tail: int, framed: bool, writer: Writer, reader: Reader,
                         sent: seq<seq<Byte>>, received: seq<seq<Byte>>)

  function Used(s: State): int {
    BytesInBuffer(|s.data|, s.head, s.tail)
  }

  function Contents(s: State): seq<Byte>
    requires 0 <= s.head < |s.data| && 0 <= s.tail < |s.data|
  {
    UsedAndFree(|s.data|, s.head, s.tail);
    Window(s.data, s.tail, Used(s))
  }

  datatype Step =
    | BeginWrite(body: seq<Byte>)   // the space available has been read: prvWriteMessageToBuffer()
    | WriteByte
    | EndWrite
    | BeginRead(max: int)           // the bytes available have been read: prvReadMessageFromBuffer()
    | ReadByte
    | EndRead

  /** How many body bytes the reader will take, once it knows the length. */
  function Wanted(s: State, r: Reader): int
    requires r.Reading? && (s.framed ==> |r.got| >= PREFIX)
  {
    if s.framed then
      var n := LengthOf(r.got);
      var n' := if n > r.max then 0 else n;
      if n' < r.available - PREFIX then n' else r.available - PREFIX
    else if r.max < r.available then r.max else r.available
  }

  function PrefixOf(s: State): int {
    if s.framed then PREFIX else 0
  }

  /** The reader has all it wants. */
  predicate Complete(s: State, r: Reader) {
    r.Reading? && (s.framed ==> |r.got| >= PREFIX) && |r.got| >= PrefixOf(s) + Wanted(s, r)
  }

  predicate Enabled(s: State, step: Step) {
    match step
    case BeginWrite(body) => s.writer.WriterIdle? && |body| < SIZE_MODULUS
    case WriteByte => s.writer.Writing? && s.writer.written < |s.writer.plan|
    case EndWrite => s.writer.Writing? && s.writer.written == |s.writer.plan|
    case BeginRead(max) => s.reader.ReaderIdle? && max >= 0
    case ReadByte => s.reader.Reading? && !Complete(s, s.reader)
    case EndRead => Complete(s, s.reader)
  }

  /** What prvWriteMessageToBuffer() decides to write. */
  function Planned(framed: bool, body: seq<Byte>, space: int): Writer {
    if framed then
      if space >= |body| + PREFIX then Writing(body, Frame(body), 0, body != []) else WriterIdle
    else
      var n := if |body| < space then |body| else space;
      if n > 0 then Writing(body[..n], body[..n], 0, true) else WriterIdle
  }

  /** All positions lie in the ring. */
  predicate Fits(s: State) {
    && 0 <= s.head < |s.data| && 0 <= s.tail < |s.data|
    && (s.writer.Writing? ==> 0 <= s.writer.written <= |s.writer.plan| && Used(s) + |s.writer.plan| < |s.data|)
    && (s.reader.Reading? ==> 0 <= s.reader.max && |s.reader.got| <= s.reader.available <= Used(s))
  }

  function Apply(s: State, step: Step): State
    requires Fits(s) && Enabled(s, step)
  {
    var size := |s.data|;
    match step
    case BeginWrite(body) => s.(writer := Planned(s.framed, body, SpacesAvailable(size, s.head, s.tail)))
    case WriteByte =>
      var w := s.writer.written;
      s.(data := s.data[At(size, s.head + w) := s.writer.plan[w]], writer := s.writer.(written := w + 1))
    case EndWrite =>
      if s.writer.commit then
        s.(head := At(size, s.head + s.writer.written), writer := WriterIdle, sent := s.sent + [s.writer.body])
      else s.(writer := WriterIdle)
    case BeginRead(max) =>
      if Used(s) > PrefixOf(s) then s.(reader := Reading(max, Used(s), [])) else s
    case ReadByte =>
      s.(reader := s.reader.(got := s.reader.got + [s.data[At(size, s.tail + |s.reader.got|)]]))
    case EndRead =>
      if Wanted(s, s.reader) == 0 then s.(reader := ReaderIdle)
      else s.(tail := At(size, s.tail + |s.reader.got|), reader := ReaderIdle,
              received := s.received + [s.reader.got[PrefixOf(s)..]])
  }

  // ----- The invariant

  /** What was received and what is in the buffer make up what was sent; messages come whole and in order. */
  ghost predicate Stored(s: State)
    requires Fits(s)
  {
    && Encode(s.framed, s.received) + Contents(s) == Encode(s.framed, s.sent)
    && (s.framed ==> s.received <= s.sent && forall i :: 0 <= i < |s.sent| ==> 0 < |s.sent[i]| < SIZE_MODULUS)
  }

  /** What has been written so far lies beyond the head, where no reader looks. */
  ghost predicate WriterFits(s: State)
    requires Fits(s)
  {
    s.writer.Writing? ==>
      var w := s.writer;
      && Window(s.data, s.head, w.written) == w.plan[..w.written]
      && (w.commit ==> w.plan == (if s.framed then Frame(w.body) else w.body) && 0 < |w.body| < SIZE_MODULUS)
  }

  /** What has been read so far is the start of the contents, and no more than was wanted. */
  ghost predicate ReaderFits(s: State)
    requires Fits(s)
  {
    s.reader.Reading? ==>
      var r := s.reader;
      && r.got == Contents(s)[..|r.got|]
      && (if s.framed then
            && |s.received| < |s.sent| && PREFIX + |s.sent[|s.received|]| <= r.available
            && (|r.got| >= PREFIX ==> |r.got| <= PREFIX + Wanted(s, r))
          else |r.got| <= Wanted(s, r))
  }

  ghost predicate Inv(s: State) {
    Fits(s) && Stored(s) && WriterFits(s) && ReaderFits(s)
  }

  /** A record is never torn: the contents of a message buffer start with a whole message, if with anything. */
  lemma ContentsAreRecords(s: State)
    requires Fits(s) && Stored(s) && s.framed
    ensures Contents(s) == Encode(true, s.sent[|s.received|..])
    ensures |s.received| < |s.sent| ==> Frame(s.sent[|s.received|]) <= Contents(s)
    ensures |Contents(s)| > 0 <==> |s.received| < |s.sent|
  {
    var rest := s.sent[|s.received|..];
    assert s.sent == s.received + rest;
    EncodeAppend(true, s.received, rest);
    hide Frame, Contents, LengthBytes;
    Cancel(Encode(true, s.received), Contents(s), Encode(true, rest));
    if rest != [] {
      assert rest[0] == s.sent[|s.received|];
    }
  }

  lemma Cancel(a: seq<Byte>, b: seq<Byte>, c: seq<Byte>)
    requires a + b == a + c
    ensures b == c
  {
    assert b == (a + b)[|a|..] && c == (a + c)[|a|..];
  }

  lemma BeginWriteKeeps(s: State, body: seq<Byte>)
    requires Inv(s) && Enabled(s, BeginWrite(body))
    ensures Inv(Apply(s, BeginWrite(body)))
  {
    UsedAndFree(|s.data|, s.head, s.tail);
    var s' := Apply(s, BeginWrite(body));
    assert Contents(s') == Contents(s);
    hide Frame, Encode;
  }

  lemma WriteByteKeeps(s: State)
    requires Inv(s) && Enabled(s, WriteByte)
    ensures Inv(Apply(s, WriteByte))
  {
    var size, w, b := |s.data|, s.writer.written, s.writer.plan[s.writer.written];
    var s' := Apply(s, WriteByte);
    WriteByteOutside(s);
    hide Frame, Encode, LengthOf, Window;
    WindowSplit(s'.data, s.head, w, 1);
    WindowIndex(s'.data, At(size, s.head + w), 1);
    assert Window(s'.data, At(size, s.head + w), 1) == [b];
    assert s.writer.plan[..w + 1] == s.writer.plan[..w] + [b];
  }

  /** The byte lands beyond the contents and beyond what has been written so far. */
  lemma WriteByteOutside(s: State)
    requires Fits(s) && Enabled(s, WriteByte)
    ensures var s', w := Apply(s, WriteByte), s.writer.written;
            && Fits(s') && Contents(s') == Contents(s) && Window(s'.data, s.head, w) == Window(s.data, s.head, w)
            && s'.data[At(|s.data|, s.head + w)] == s.writer.plan[w]
  {
    var size, w, b := |s.data|, s.writer.written, s.writer.plan[s.writer.written];
    UsedAndFree(size, s.head, s.tail);
    assert At(size, s.head + w) == At(size, s.tail + (Used(s) + w));
    PokeOutside(s.data, s.tail, Used(s), Used(s) + w, b);
    PokeOutside(s.data, s.head, w, w, b);
  }

  lemma CommittedFits(s: State)
    requires Inv(s) && Enabled(s, EndWrite) && s.writer.commit
    ensures var s' := Apply(s, EndWrite);
            && Fits(s') && Used(s') == Used(s) + |s.writer.plan| && Contents(s') == Contents(s) + s.writer.plan
  {
    var size := |s.data|;
    UsedAndFree(size, s.head, s.tail);
    AdvanceHead(size, s.head, s.tail, |s.writer.plan|);
    WindowSplit(s.data, s.tail, Used(s), |s.writer.plan|);
    assert s.writer.plan[..s.writer.written] == s.writer.plan;
  }

  /** Committing the head makes the whole message visible at once. */
  lemma EndWriteKeeps(s: State)
    requires Inv(s) && Enabled(s, EndWrite)
    ensures Inv(Apply(s, EndWrite))
  {
    var s' := Apply(s, EndWrite);
    if s.writer.commit {
      CommittedFits(s);
      SentStored(s, s', s.writer.body);
      hide Frame, Encode, Contents, LengthOf, Stored;
    } else {
      assert Contents(s') == Contents(s);
      hide Frame, Encode, LengthOf;
    }
  }

  lemma SentStored(s: State, s': State, m: seq<Byte>)
    requires Fits(s) && Fits(s') && Stored(s) && s'.framed == s.framed && s'.sent == s.sent + [m] && s'.received == s.received
    requires Contents(s') == Contents(s) + (if s.framed then Frame(m) else m) && 0 < |m| < SIZE_MODULUS
    ensures Stored(s')
  {
    EncodeAppend(s.framed, s.sent, [m]);
    EncodeOne(s.framed, m);
    hide Encode, Frame, Contents;
    var f := if s.framed then Frame(m) else m;
    assert Encode(s.framed, s.received) + (Contents(s) + f) == (Encode(s.framed, s.received) + Contents(s)) + f;
  }

  lemma BeginReadKeeps(s: State, max: int)
    requires Inv(s) && Enabled(s, BeginRead(max))
    ensures Inv(Apply(s, BeginRead(max)))
  {
    var s' := Apply(s, BeginRead(max));
    UsedAndFree(|s.data|, s.head, s.tail);
    assert Contents(s') == Contents(s);
    if s.framed {
      ContentsAreRecords(s);
    }
    hide Encode;
  }

  /** Once the length is read, it is the length of the first message that has not been received. */
  lemma LengthIsRight(s: State, got: seq<Byte>)
    requires Fits(s) && Stored(s) && s.framed && |s.received| < |s.sent|
    requires PREFIX <= |got| <= |Contents(s)| && got == Contents(s)[..|got|]
    ensures LengthOf(got) == |s.sent[|s.received|]|
  {
    ContentsAreRecords(s);
    var m := s.sent[|s.received|];
    LengthRoundTrip(|m|);
    assert got[..PREFIX] == Contents(s)[..PREFIX] == LengthBytes(|m|);
    hide LengthBytes, Encode;
    assert LengthOf(got) == LengthOf(got[..PREFIX]);
  }

  lemma ReadByteKeeps(s: State)
    requires Inv(s) && Enabled(s, ReadByte)
    ensures Inv(Apply(s, ReadByte))
  {
    hide Encode, Frame, LengthOf;
    var s' := Apply(s, ReadByte);
    UsedAndFree(|s.data|, s.head, s.tail);
    var r, r' := s.reader, s'.reader;
    if s.framed && |r.got| >= PREFIX {
      LengthIsRight(s, r.got);
    }
    assert |r.got| < r.available;
    assert Contents(s') == Contents(s);
    assert r'.got == Contents(s)[..|r'.got|];
    if s.framed && |r'.got| >= PREFIX {
      LengthIsRight(s, r'.got);
    }
    hide Stored, WriterFits;
  }

  lemma ConsumedFits(s: State)
    requires Inv(s) && Enabled(s, EndRead)
    ensures 0 <= At(|s.data|, s.tail + |s.reader.got|) < |s.data|
    ensures var s1 := s.(tail := At(|s.data|, s.tail + |s.reader.got|), reader := ReaderIdle);
            Fits(s1) && Contents(s) == s.reader.got + Contents(s1)
  {
    hide Encode, Frame, LengthOf, WriterFits;
    var n := |s.reader.got|;
    UsedAndFree(|s.data|, s.head, s.tail);
    AdvanceTail(|s.data|, s.head, s.tail, n);
    WindowSplit(s.data, s.tail, n, Used(s) - n);
  }

  /** A message is received whole or, when it does not fit, left in place. */
  lemma EndReadKeeps(s: State)
    requires Inv(s) && Enabled(s, EndRead)
    ensures Inv(Apply(s, EndRead))
    ensures var s' := Apply(s, EndRead);
            s.framed ==> s'.received == if |s.sent[|s.received|]| > s.reader.max then s.received
                                        else s.received + [s.sent[|s.received|]]
  {
    hide Encode, Frame, LengthOf, WriterFits;
    if Wanted(s, s.reader) == 0 {
      var s' := Apply(s, EndRead);
      assert Contents(s') == Contents(s);
      if s.framed {
        LengthIsRight(s, s.reader.got);
      }
      assert WriterFits(s') by {
        SameWriter(s, s');
      }
    } else if s.framed {
      EndMessage(s);
    } else {
      EndBytes(s);
    }
  }

  lemma SameWriter(s: State, s': State)
    requires Fits(s) && Fits(s') && WriterFits(s)
    requires s'.writer == s.writer && s'.data == s.data && s'.head == s.head && s'.framed == s.framed
    ensures WriterFits(s')
  {
  }

  lemma EndMessage(s: State)
    requires Inv(s) && Enabled(s, EndRead) && s.framed && Wanted(s, s.reader) != 0
    ensures Inv(Apply(s, EndRead))
    ensures |s.sent[|s.received|]| <= s.reader.max && Apply(s, EndRead).received == s.received + [s.sent[|s.received|]]
  {
    hide Encode, LengthOf, WriterFits;
    var s', m := Apply(s, EndRead), s.sent[|s.received|];
    ConsumedFits(s);
    LengthIsRight(s, s.reader.got);
    ContentsAreRecords(s);
    assert |s.reader.got| == |Frame(m)| && s.reader.got == Frame(m);
    assert s.reader.got[PREFIX..] == m;
    hide Frame, Contents;
    EndReadStored(s, s', m);
    SameWriter(s, s');
  }

  lemma EndBytes(s: State)
    requires Inv(s) && Enabled(s, EndRead) && !s.framed && Wanted(s, s.reader) != 0
    ensures Inv(Apply(s, EndRead))
  {
    hide Encode, LengthOf, WriterFits;
    var s', got := Apply(s, EndRead), s.reader.got;
    ConsumedFits(s);
    assert got[0..] == got;
    hide Frame, Contents;
    EndReadStored(s, s', got);
    SameWriter(s, s');
  }

  lemma EndReadStored(s: State, s': State, m: seq<Byte>)
    requires Fits(s) && Fits(s') && Stored(s) && s'.framed == s.framed && s'.sent == s.sent && s'.received == s.received + [m]
    requires s.framed ==> |s.received| < |s.sent| && m == s.sent[|s.received|]
    requires Contents(s) == (if s.framed then Frame(m) else m) + Contents(s')
    ensures Stored(s')
  {
    EncodeAppend(s.framed, s.received, [m]);
    EncodeOne(s.framed, m);
    hide Encode, Frame, Contents;
    var f := if s.framed then Frame(m) else m;
    assert Encode(s.framed, s.received) + (f + Contents(s')) == (Encode(s.framed, s.received) + f) + Contents(s');
  }

  lemma StepKeeps(s: State, step: Step)
    requires Inv(s) && Enabled(s, step)
    ensures Inv(Apply(s, step))
  {
    hide Inv, Apply, Enabled;
    match step
    case BeginWrite(body) => BeginWriteKeeps(s, body);
    case WriteByte => WriteByteKeeps(s);
    case EndWrite => EndWriteKeeps(s);
    case BeginRead(max) => BeginReadKeeps(s, max);
    case ReadByte => ReadByteKeeps(s);
    case EndRead => EndReadKeeps(s);
  }

  // ----- Whole runs

  ghost predicate Possible(s: State, steps: seq<Step>)
    requires Inv(s)
    decreases |steps|
  {
    steps == [] || (Enabled(s, steps[0]) && (StepKeeps(s, steps[0]); Possible(Apply(s, steps[0]), steps[1..])))
  }

  ghost function Run(s: State, steps: seq<Step>): (s': State)
    requires Inv(s) && Possible(s, steps)
    ensures Inv(s')
    decreases |steps|
  {
    if steps == [] then s else
      StepKeeps(s, steps[0]);
      Run(Apply(s, steps[0]), steps[1..])
  }

  function Empty(size: nat, framed: bool): (s: State)
    requires size > 0
    ensures Inv(s)
  {
    State(seq(size, i => 0), 0, 0, framed, WriterIdle, ReaderIdle, [], [])
  }

  lemma {:induction false} RunFrame(s: State, steps: seq<Step>)
    requires Inv(s) && Possible(s, steps)
    ensures Run(s, steps).framed == s.framed && |Run(s, steps).data| == |s.data|
    decreases |steps|
  {
    if steps != [] {
      StepKeeps(s, steps[0]);
      StepFrame(s, steps[0]);
      hide Apply, Inv;
      RunFrame(Apply(s, steps[0]), steps[1..]);
    }
  }

  lemma StepFrame(s: State, step: Step)
    requires Fits(s) && Enabled(s, step)
    ensures Apply(s, step).framed == s.framed && |Apply(s, step).data| == |s.data|
  {
    hide LengthOf;
  }

  /**
  However writer and reader interleave, byte by byte: from a message buffer the messages sent
  are received whole, in order and once each; from a stream buffer so are the bytes.
  */
  lemma ReceivedInOrder(size: nat, framed: bool, steps: seq<Step>)
    requires size > 0 && Possible(Empty(size, framed), steps)
    ensures var s := Run(Empty(size, framed), steps);
            && (framed ==> s.received <= s.sent)
            && Encode(framed, s.received) <= Encode(framed, s.sent)
            && |Encode(framed, s.sent)| - |Encode(framed, s.received)| == Used(s) < size
  {
    RunFrame(Empty(size, framed), steps);
    UsedAndFree(size, Run(Empty(size, framed), steps).head, Run(Empty(size, framed), steps).tail);
    hide Encode, Run, Possible;
  }

  /** Moving the head over bytes that were copied in behind it appends them to the contents. */
  lemma CopiedInAppends(data: seq<Byte>, head: int, tail: int, bs: seq<Byte>)
    requires 0 <= head < |data| && 0 <= tail < |data| && BytesInBuffer(|data|, head, tail) + |bs| < |data|
    ensures var d, used, h := CopiedIn(data, head, bs), BytesInBuffer(|data|, head, tail), At(|data|, head + |bs|);
            && 0 <= used < |data| && 0 <= h < |data| && BytesInBuffer(|data|, h, tail) == used + |bs|
            && Window(d, tail, used) == Window(data, tail, used)
            && Window(d, tail, used + |bs|) == Window(data, tail, used) + bs
  {
    var used := BytesInBuffer(|data|, head, tail);
    UsedAndFree(|data|, head, tail);
    AdvanceHead(|data|, head, tail, |bs|);
    CopiedInOutside(data, tail, used, bs);
    CopiedInWindow(data, head, bs);
    WindowSplit(CopiedIn(data, head, bs), tail, used, |bs|);
  }

  // ----- The code, one call at a time

  class StreamBuffer {
    const buffer: array<Byte>
    const framed: bool
    var head: int
    var tail: int

    ghost predicate Valid()
      reads this, buffer
    {
      0 <= head < buffer.Length && 0 <= tail < buffer.Length
    }

    /** The bytes from tail to head. */
    ghost function Bytes(): seq<Byte>
      requires Valid()
      reads this, buffer
    {
      UsedAndFree(buffer.Length, head, tail);
      Window(buffer[..], tail, BytesInBuffer(buffer.Length, head, tail))
    }

    constructor (size: nat, framed: bool)
      requires size > 0
      ensures Valid() && fresh(buffer) && buffer.Length == size && this.framed == framed && Bytes() == []
    {
      buffer := new Byte[size](i => 0x55);
      this.framed := framed;
      head, tail := 0, 0;
    }

    /** prvWriteBytesToBuffer(): the head itself is not moved. */
    method WriteBytesToBuffer(data: seq<Byte>, from: int) returns (next: int)
      requires 0 <= from < buffer.Length && 0 < |data| < buffer.Length
      modifies buffer
      ensures next == At(buffer.Length, from + |data|)
      ensures buffer[..] == CopiedIn(old(buffer[..]), from, data)
    {
      var size, count := buffer.Length, |data|;
      var first := if size - from < count then size - from else count;
      forall i | 0 <= i < first {
        buffer[from + i] := data[i];
      }
      if count > first {
        forall i | 0 <= i < count - first {
          buffer[i] := data[first + i];
        }
      }
      next := from + count;
      if next >= size {
        next := next - size;
      }
    }

    /** prvReadBytesFromBuffer(): the tail itself is not moved. */
    method ReadBytesFromBuffer(count: int, from: int) returns (data: seq<Byte>, next: int)
      requires 0 <= from < buffer.Length && 0 < count < buffer.Length
      ensures data == Window(buffer[..], from, count) && next == At(buffer.Length, from + count)
    {
      WindowIndex(buffer[..], from, count);
      var size := buffer.Length;
      var first := if size - from < count then size - from else count;
      data := buffer[from..from + first];
      if count > first {
        data := data + buffer[..count - first];
      }
      next := from + count;
      if next >= size {
        next := next - size;
      }
    }

    /** xStreamBufferSend() without waiting: returns the number of bytes of the body that were sent. */
    method Send(body: seq<Byte>) returns (n: int)
      requires Valid() && |body| + PREFIX < SIZE_MODULUS
      modifies this`head, buffer
      ensures Valid()
      ensures var free := buffer.Length - 1 - |old(Bytes())|;
              if framed then
                if body != [] && |body| + PREFIX <= free then n == |body| && Bytes() == old(Bytes()) + Frame(body)
                else n == 0 && Bytes() == old(Bytes())
              else n == (if |body| < free then |body| else free) && Bytes() == old(Bytes()) + body[..n]
    {
      UsedAndFree(buffer.Length, head, tail);
      var space := SpacesAvailable(buffer.Length, head, tail);
      var required := if framed then |body| + PREFIX else |body|;
      n := WriteMessageToBuffer(body, space, required);
    }

    /** prvWriteMessageToBuffer(): the head moves once, after everything has been written. */
    method WriteMessageToBuffer(body: seq<Byte>, space: int, required: int) returns (n: int)
      requires Valid() && space == buffer.Length - 1 - |Bytes()| && required == |body| + (if framed then PREFIX else 0)
      modifies this`head, buffer
      ensures Valid()
      ensures if framed then
                if body != [] && required <= space then n == |body| && Bytes() == old(Bytes()) + Frame(body)
                else n == 0 && Bytes() == old(Bytes())
              else n == (if |body| < space then |body| else space) && Bytes() == old(Bytes()) + body[..n]
    {
      ghost var was, contents, plan, h0 := buffer[..], Bytes(), [], head;
      UsedAndFree(buffer.Length, head, tail);
      hide LengthBytes, Window, CopiedIn;
      var nextHead := head;
      n := |body|;
      if framed {
        if space >= required {
          plan := LengthBytes(|body|);
          nextHead := WriteBytesToBuffer(LengthBytes(|body|), head);
          CopiedInAppends(was, head, tail, plan);
        } else {
          n := 0;
        }
      } else {
        n := if n < space then n else space;
        CopiedInNothing(was, head);
      }
      if n != 0 {
        assert body[..|body|] == body;
        WriteAndCommit(body[..n], nextHead, was, plan);
      } else {
        assert contents + body[..0] == contents;
      }
    }

    /** The body goes in after what is already planned, and the head moves over both. */
    method WriteAndCommit(data: seq<Byte>, from: int, ghost was: seq<Byte>, ghost plan: seq<Byte>)
      requires Valid() && |was| == buffer.Length && data != []
      requires buffer[..] == CopiedIn(was, head, plan) && from == At(buffer.Length, head + |plan|)
      requires BytesInBuffer(buffer.Length, head, tail) + |plan| + |data| < buffer.Length
      modifies this`head, buffer
      ensures Valid()
      ensures var used := old(BytesInBuffer(buffer.Length, head, tail));
              0 <= used < |was| && Bytes() == Window(was, tail, used) + (plan + data)
    {
      hide Window, CopiedIn;
      CopiedInTwice(was, head, plan, data);
      CopiedInAppends(was, head, tail, plan + data);
      head := WriteBytesToBuffer(data, from);
    }

    /** xStreamBufferReceive() without waiting; `ms` are the messages in a message buffer. */
    method Receive(max: int, ghost ms: seq<seq<Byte>>) returns (data: seq<Byte>)
      requires Valid() && max >= 0
      requires framed ==> Bytes() == Encode(true, ms) && forall i :: 0 <= i < |ms| ==> 0 < |ms[i]| < SIZE_MODULUS
      modifies this`tail
      ensures Valid()
      ensures if framed then
                if ms == [] || |ms[0]| > max then data == [] && Bytes() == old(Bytes())
                else data == ms[0] && Bytes() == Encode(true, ms[1..])
              else data + Bytes() == old(Bytes()) && |data| == (if max < |old(Bytes())| then max else |old(Bytes())|)
    {
      UsedAndFree(buffer.Length, head, tail);
      var available := BytesInBuffer(buffer.Length, head, tail);
      data := [];
      hide LengthBytes;
      if available > (if framed then PREFIX else 0) {
        data := ReadMessageFromBuffer(max, available, ms);
      } else {
        assert [] + Bytes() == Bytes();
      }
    }

    /** prvReadMessageFromBuffer(): the tail moves once, after everything has been read. */
    method ReadMessageFromBuffer(max: int, available: int, ghost ms: seq<seq<Byte>>) returns (data: seq<Byte>)
      requires Valid() && max >= 0 && available == |Bytes()| && available > (if framed then PREFIX else 0)
      requires framed ==> Bytes() == Encode(true, ms) && forall i :: 0 <= i < |ms| ==> 0 < |ms[i]| < SIZE_MODULUS
      modifies this`tail
      ensures Valid()
      ensures if framed then
                && ms != []
                && if |ms[0]| > max then data == [] && Bytes() == old(Bytes())
                   else data == ms[0] && Bytes() == Encode(true, ms[1..])
              else data + Bytes() == old(Bytes()) && |data| == (if max < |old(Bytes())| then max else |old(Bytes())|)
    {
      ghost var contents := Bytes();
      UsedAndFree(buffer.Length, head, tail);
      hide LengthBytes, LengthOf, Window, Encode;
      var nextTail, rest, wanted := tail, available, max;
      if framed {
        var prefix;
        prefix, nextTail := ReadBytesFromBuffer(PREFIX, tail);
        WindowSplit(buffer[..], tail, PREFIX, available - PREFIX);
        FirstFrame(contents, prefix, ms);
        wanted := LengthOf(prefix);
        rest := available - PREFIX;
        if wanted > max {
          wanted := 0;
        }
      }
      var count := if wanted < rest then wanted else rest;
      data := [];
      if count != 0 {
        data := ReadAndConsume(count, nextTail, available - rest);
        if framed {
          assert contents[PREFIX..] == data + Bytes();
          SameLengthParts(ms[0], Encode(true, ms[1..]), data, Bytes());
        } else {
          assert contents[..0] + (data + Bytes()) == data + Bytes();
        }
      } else {
        assert [] + Bytes() == contents;
      }
    }

    /** The bytes after those skipped are read, and the tail moves over both. */
    method ReadAndConsume(count: int, from: int, ghost skipped: int) returns (data: seq<Byte>)
      requires Valid() && 0 <= skipped && 0 < count && skipped + count <= |Bytes()| && from == At(buffer.Length, tail + skipped)
      modifies this`tail
      ensures Valid() && |data| == count && old(Bytes()) == old(Bytes())[..skipped] + (data + Bytes())
    {
      hide Window;
      UsedAndFree(buffer.Length, head, tail);
      ReadSplit(buffer[..], tail, |Bytes()|, skipped, count);
      AdvanceTail(buffer.Length, head, tail, skipped + count);
      data, tail := ReadBytesFromBuffer(count, from);
    }
  }

  /** Contents in three parts: what is skipped, what is read, and what is left. */
  lemma ReadSplit(data: seq<Byte>, tail: int, used: int, skipped: int, count: int)
    requires 0 <= tail < |data| && 0 <= skipped && 0 <= count && skipped + count <= used < |data|
    ensures var from, next := At(|data|, tail + skipped), At(|data|, tail + skipped + count);
            && 0 <= from < |data| && 0 <= next < |data| && next == At(|data|, from + count)
            && Window(data, tail, used)
               == Window(data, tail, used)[..skipped] + (Window(data, from, count) + Window(data, next, used - skipped - count))
  {
    WindowSplit(data, tail, skipped, used - skipped);
    WindowSplit(data, At(|data|, tail + skipped), count, used - skipped - count);
  }

  lemma SameLengthParts(a: seq<Byte>, b: seq<Byte>, c: seq<Byte>, d: seq<Byte>)
    requires a + b == c + d && |a| == |c|
    ensures a == c && b == d
  {
    assert a == (a + b)[..|a|] && c == (c + d)[..|c|];
    Cancel(a, b, d);
  }

  /** The first four bytes are the length of the first message. */
  lemma FirstFrame(contents: seq<Byte>, prefix: seq<Byte>, ms: seq<seq<Byte>>)
    requires contents == Encode(true, ms) && |contents| > PREFIX && prefix == contents[..PREFIX]
    requires forall i :: 0 <= i < |ms| ==> 0 < |ms[i]| < SIZE_MODULUS
    ensures ms != [] && LengthOf(prefix) == |ms[0]| <= |contents| - PREFIX
    ensures contents[PREFIX..] == ms[0] + Encode(true, ms[1..])
  {
    LengthRoundTrip(|ms[0]|);
    hide LengthBytes, LengthOf;
    assert prefix == LengthBytes(|ms[0]|);
  }
}
