/**
The checksum of an update package (script/MakeUpdatePack.py): a table-driven CRC-32 computed in
chunks of 256 bytes, with the final complement undone and redone between chunks.  It equals
the plain bit-serial CRC-32, the one of section 8 of RFC 1952.
*/
module Crc32 {
  type Word = bv32

  const POLYNOMIAL: Word := 0xEDB8_8320
  const ONES: Word := 0xFFFF_FFFF
  const CHUNK_SIZE := 256

  function Xor(a: Word, b: Word): Word {
    a ^ b
  }

  function LowByte(c: Word): Word {
    c & 0xFF
  }

  function WithoutLowByte(c: Word): Word {
    c & 0xFFFF_FF00
  }

  function Shift8(c: Word): Word {
    c >> 8
  }

  // ----- The reference: one bit of the message at a time

  /** The shift register after one message bit. */
  function NextBit(crc: Word, bit: Word): Word {
    if (crc ^ bit) & 1 == 1 then (crc >> 1) ^ POLYNOMIAL else crc >> 1
  }

  /** After the lowest n bits of a byte, lowest first. */
  function Bits(crc: Word, b: Word, n: nat): Word
    decreases n
  {
    if n == 0 then crc else Bits(NextBit(crc, b & 1), b >> 1, n - 1)
  }

  function NextByte(crc: Word, b: bv8): Word {
    Bits(crc, b as Word, 8)
  }

  function Register(crc: Word, data: seq<bv8>): Word
    decreases |data|
  {
    if data == [] then crc else Register(NextByte(crc, data[0]), data[1..])
  }

  /** CRC-32 of a message. */
  function Crc(data: seq<bv8>): Word {
    Xor(Register(ONES, data), ONES)
  }

  // ----- The table

  /** One turn of the inner loop that fills the table. */
  function Step(crc: Word): Word {
    if crc & 1 == 1 then (crc >> 1) ^ POLYNOMIAL else crc >> 1
  }

  function Steps(crc: Word, n: nat): Word
    decreases n
  {
    if n == 0 then crc else Steps(Step(crc), n - 1)
  }

  /** What a look-up in the table does. */
  function LookUp(crc: Word, w: Word): Word {
    Xor(Steps(Xor(LowByte(crc), w), 8), Shift8(crc))
  }

  lemma XorShift(a: Word, b: Word)
    ensures (a ^ b) >> 1 == (a >> 1) ^ (b >> 1)
  {
  }

  lemma XorLow(a: Word, b: Word)
    ensures (a ^ b) & 1 == 1 <==> (a & 1 == 1) != (b & 1 == 1)
  {
  }

  lemma XorTwice(a: Word, b: Word, c: Word)
    ensures (a ^ c) ^ (b ^ c) == a ^ b
    ensures (a ^ c) ^ b == (a ^ b) ^ c && a ^ (b ^ c) == (a ^ b) ^ c
  {
  }

  lemma XorIs(a: Word, b: Word)
    ensures Xor(a, b) == a ^ b
  {
  }

  lemma StepOfXor(a: Word, b: Word)
    ensures Step(a ^ b) == Step(a) ^ Step(b)
  {
    XorShift(a, b);
    XorLow(a, b);
    XorTwice(a >> 1, b >> 1, POLYNOMIAL);
  }

  /** The table is linear: it need only hold the remainders of the bytes. */
  lemma {:induction false} StepsLinear(a: Word, b: Word, n: nat)
    ensures Steps(Xor(a, b), n) == Xor(Steps(a, n), Steps(b, n))
    decreases n
  {
    hide Step;
    if n > 0 {
      assert Step(Xor(a, b)) == Xor(Step(a), Step(b)) by {
        StepOfXor(a, b);
      }
      hide Xor;
      StepsLinear(Step(a), Step(b), n - 1);
    }
  }

  lemma EvenSteps(c: Word, n: nat)
    requires n > 0 && c & 1 == 0
    ensures Steps(c, n) == Steps(c >> 1, n - 1)
  {
  }

  /** Bits above the lowest eight are only shifted. */
  lemma StepsOfHighBits(c: Word)
    requires LowByte(c) == 0
    ensures Steps(c, 8) == Shift8(c)
  {
    ShiftChain(c);
    hide Steps;
    EvenSteps(c, 8);
    EvenSteps(c >> 1, 7);
    EvenSteps(c >> 2, 6);
    EvenSteps(c >> 3, 5);
    EvenSteps(c >> 4, 4);
    EvenSteps(c >> 5, 3);
    EvenSteps(c >> 6, 2);
    EvenSteps(c >> 7, 1);
    NoSteps(c >> 8);
  }

  lemma NoSteps(c: Word)
    ensures Steps(c, 0) == c
  {
  }

  lemma ShiftChain(c: Word)
    requires c & 0xFF == 0
    ensures c & 1 == 0 && (c >> 1) & 1 == 0 && (c >> 2) & 1 == 0 && (c >> 3) & 1 == 0
    ensures (c >> 4) & 1 == 0 && (c >> 5) & 1 == 0 && (c >> 6) & 1 == 0 && (c >> 7) & 1 == 0
    ensures (c >> 1) >> 1 == c >> 2 && (c >> 2) >> 1 == c >> 3 && (c >> 3) >> 1 == c >> 4 && (c >> 4) >> 1 == c >> 5
    ensures (c >> 5) >> 1 == c >> 6 && (c >> 6) >> 1 == c >> 7 && (c >> 7) >> 1 == c >> 8
  {
  }

  lemma BitOfXor(crc: Word, b: Word)
    ensures NextBit(crc, b & 1) ^ (b >> 1) == Step(crc ^ b)
  {
  }

  /** Feeding message bits in one at a time is the same as adding them all first. */
  lemma {:induction false} BitsAreSteps(crc: Word, b: Word, n: nat)
    requires n <= 8 && b >> n == 0
    ensures Bits(crc, b, n) == Steps(Xor(crc, b), n)
    decreases n
  {
    hide NextBit, Step, Xor;
    if n > 0 {
      BitOfXor(crc, b);
      XorIs(crc, b);
      XorIs(NextBit(crc, b & 1), b >> 1);
      ShiftOnce(b, n);
      BitsAreSteps(NextBit(crc, b & 1), b >> 1, n - 1);
    } else {
      ZeroWord(crc, b);
    }
  }

  lemma ZeroWord(crc: Word, b: Word)
    requires b >> 0 == 0
    ensures Xor(crc, b) == crc
  {
  }

  lemma ShiftOnce(b: Word, n: nat)
    requires 0 < n <= 8 && b >> n == 0
    ensures (b >> 1) >> (n - 1) == 0
  {
    match n
    case 1 =>
    case 2 =>
    case 3 =>
    case 4 =>
    case 5 =>
    case 6 =>
    case 7 =>
    case 8 =>
  }

  lemma LowAndHigh(crc: Word)
    ensures Xor(LowByte(crc), WithoutLowByte(crc)) == crc
    ensures LowByte(WithoutLowByte(crc)) == 0 && Shift8(WithoutLowByte(crc)) == Shift8(crc)
  {
  }

  lemma XorAssociates(a: Word, b: Word, c: Word)
    ensures Xor(Xor(a, b), c) == Xor(a, Xor(b, c))
  {
  }

  lemma XorCommutes(a: Word, b: Word)
    ensures Xor(a, b) == Xor(b, a)
  {
  }

  lemma XorSwap(a: Word, b: Word, c: Word)
    ensures Xor(Xor(a, b), c) == Xor(Xor(a, c), b)
  {
    hide Xor;
    XorAssociates(a, b, c);
    XorAssociates(a, c, b);
    XorCommutes(b, c);
  }

  lemma SplitWord(crc: Word, w: Word)
    ensures Xor(crc, w) == Xor(Xor(LowByte(crc), w), WithoutLowByte(crc))
  {
    hide *;
    LowAndHigh(crc);
    XorSwap(LowByte(crc), WithoutLowByte(crc), w);
  }

  /** One look-up in the table does the work of eight bits. */
  lemma LookUpExact(crc: Word, w: Word)
    requires w >> 8 == 0
    ensures LookUp(crc, w) == Bits(crc, w, 8)
  {
    hide Bits, Steps, Xor, LowByte, WithoutLowByte, Shift8;
    BitsAreSteps(crc, w, 8);
    SplitWord(crc, w);
    LowAndHigh(crc);
    StepsLinear(Xor(LowByte(crc), w), WithoutLowByte(crc), 8);
    StepsOfHighBits(WithoutLowByte(crc));
  }

  lemma ByteIsSmall(b: bv8)
    ensures (b as Word) >> 8 == 0
  {
  }

  // ----- Putting chunks together

  lemma {:induction false} RegisterAppend(crc: Word, a: seq<bv8>, b: seq<bv8>)
    ensures Register(crc, a + b) == Register(Register(crc, a), b)
    decreases |a|
  {
    hide NextByte;
    if a == [] {
      assert a + b == b;
    } else {
      assert (a + b)[0] == a[0] && (a + b)[1..] == a[1..] + b;
      RegisterAppend(NextByte(crc, a[0]), a[1..], b);
    }
  }

  lemma RegisterOne(crc: Word, b: bv8)
    ensures Register(crc, [b]) == NextByte(crc, b)
  {
    assert [b][1..] == [];
  }

  lemma Complemented(crc: Word)
    ensures Xor(Xor(crc, ONES), ONES) == crc && Xor(ONES, ONES) == 0
  {
  }

  // ----- Known values

  /** The remainder of the highest bit of a byte is the polynomial itself. */
  lemma TopBit()
    ensures Steps(0x80, 8) == 0xEDB8_8320
  {
    assert Steps(0x80, 8) == Steps(0x40, 7) == Steps(0x20, 6) == Steps(0x10, 5) == Steps(0x08, 4);
    assert Steps(0x08, 4) == Steps(0x04, 3) == Steps(0x02, 2) == Steps(0x01, 1);
  }

  /** The characters 123456789 have the check value by which CRC-32 is known; no characters have 0. */
  lemma CheckValue()
    ensures Crc([0x31, 0x32, 0x33, 0x34, 0x35, 0x36, 0x37, 0x38, 0x39]) == 0xCBF4_3926 && Crc([]) == 0
  {
    CheckRegister();
    Complemented(0);
    hide Register;
    NothingYet();
    assert Xor(0x340B_C6D9, ONES) == 0xCBF4_3926;
  }

  lemma CheckRegister()
    ensures Register(ONES, [0x31, 0x32, 0x33, 0x34, 0x35, 0x36, 0x37, 0x38, 0x39]) == 0x340B_C6D9
  {
    hide Register;
    var data: seq<bv8> := [0x31, 0x32, 0x33, 0x34, 0x35, 0x36, 0x37, 0x38, 0x39];
    assert data[0..] == data && data[9..] == [];
    TakeByte(ONES, data, 0, 0x7C23_1048);
    TakeByte(0x7C23_1048, data, 1, 0xB0AC_BB32);
    TakeByte(0xB0AC_BB32, data, 2, 0x77B7_9C2D);
    TakeByte(0x77B7_9C2D, data, 3, 0x641C_1F5C);
    TakeByte(0x641C_1F5C, data, 4, 0x340A_C5E3);
    TakeByte(0x340A_C5E3, data, 5, 0xF68D_2C9E);
    TakeByte(0xF68D_2C9E, data, 6, 0xAFFC_9660);
    TakeByte(0xAFFC_9660, data, 7, 0x651F_2550);
    TakeByte(0x651F_2550, data, 8, 0x340B_C6D9);
    NothingLeft(0x340B_C6D9);
  }

  /** The byte at position k takes the register from crc to next. */
  lemma TakeByte(crc: Word, data: seq<bv8>, k: nat, next: Word)
    requires k < |data| && Steps(Xor(crc, data[k] as Word), 8) == next
    ensures Register(crc, data[k..]) == Register(next, data[k + 1..])
  {
    ByteIsSmall(data[k]);
    BitsAreSteps(crc, data[k] as Word, 8);
    assert data[k..][1..] == data[k + 1..];
    hide Steps, Xor, Bits;
  }

  lemma NothingLeft(crc: Word)
    ensures Register(crc, []) == crc
  {
  }

  // ----- The code

  function Remainder(b: bv8): Word {
    Steps(b as Word, 8)
  }

  /** The table holds the remainder of each byte. */
  ghost predicate IsTable(table: seq<Word>) {
    |table| == 256 && forall i :: 0 <= i < 256 ==> table[i] == Remainder(i as bv8)
  }

  /** generate_crc32_table() */
  method GenerateTable() returns (table: seq<Word>)
    ensures IsTable(table)
  {
    hide Step, Remainder;
    table := [];
    for i := 0 to 256
      invariant |table| == i && forall k :: 0 <= k < i ==> table[k] == Remainder(k as bv8)
    {
      var crc := TableEntry(i as bv8);
      table := table + [crc];
    }
  }

  /** The inner loop: eight steps from the byte itself. */
  method TableEntry(i: bv8) returns (crc: Word)
    ensures crc == Remainder(i)
  {
    hide Step;
    crc := i as Word;
    for j := 0 to 8
      invariant Steps(crc, 8 - j) == Steps(i as Word, 8)
    {
      crc := Shifted(crc);
    }
  }

  method Shifted(c: Word) returns (crc: Word)
    ensures crc == Step(c)
  {
    if c & 1 == 1 {
      crc := (c >> 1) ^ 0xEDB8_8320;
    } else {
      crc := c >> 1;
    }
  }

  /** The inner loop over one chunk. */
  method UpdateChunk(table: seq<Word>, crc: Word, chunk: seq<bv8>) returns (r: Word)
    requires IsTable(table)
    ensures r == Register(crc, chunk)
  {
    hide Steps, Bits, NextByte, Xor, LowByte, Shift8;
    r := crc;
    for k := 0 to |chunk|
      invariant r == Register(crc, chunk[..k])
    {
      var b := chunk[k];
      r := UpdateByte(table, r, b);
      RegisterAppend(crc, chunk[..k], [b]);
      RegisterOne(Register(crc, chunk[..k]), b);
      assert chunk[..k + 1] == chunk[..k] + [b];
    }
    assert chunk[..|chunk|] == chunk;
  }

  method UpdateByte(table: seq<Word>, crc: Word, b: bv8) returns (r: Word)
    requires IsTable(table)
    ensures r == NextByte(crc, b)
  {
    hide Steps, Bits, Xor, LowByte, Shift8;
    ByteIsSmall(b);
    LookUpExact(crc, b as Word);
    IndexFits(crc, b);
    var index: bv8 := ((crc & 0xFF) as bv8) ^ b;
    IndexOf(index);
    r := Xor(table[index as int], Shift8(crc));
  }

  lemma IndexOf(b: bv8)
    ensures 0 <= b as int < 256 && (b as int) as bv8 == b
  {
  }

  lemma IndexFits(crc: Word, b: bv8)
    ensures crc & 0xFF < 256
    ensures (((crc & 0xFF) as bv8) ^ b) as Word == Xor(LowByte(crc), b as Word)
  {
  }

  /** calculate_crc32_from_data() */
  method Crc32FromData(data: seq<bv8>) returns (crc: Word)
    ensures crc == Crc(data)
  {
    var table := GenerateTable();
    hide Steps, Register, Xor;
    var offset := 0;
    crc := Xor(ONES, ONES);
    NothingYet();
    while offset < |data|
      invariant 0 <= offset <= |data| && crc == Xor(Register(ONES, data[..offset]), ONES)
    {
      var size := if |data| - offset < CHUNK_SIZE then |data| - offset else CHUNK_SIZE;
      var chunk := data[offset..offset + size];
      if offset == 0 {
        crc := ONES;
      } else {
        crc := Xor(crc, ONES);
      }
      Complemented(Register(ONES, data[..offset]));
      crc := UpdateChunk(table, crc, chunk);
      RegisterAppend(ONES, data[..offset], chunk);
      assert data[..offset + size] == data[..offset] + chunk;
      crc := Xor(crc, ONES);
      offset := offset + size;
    }
    assert data[..offset] == data;
  }

  lemma NothingYet()
    ensures Register(ONES, []) == ONES
  {
  }
}
