/**
That what a stream or message buffer (rtos/source/stream_buffer.c) has room for can be sent, and what
it holds can be received, whatever was going on at the other side when the transfer began.
*/
module StreamTransfers {
  import opened Config
  import opened StreamBuffers

  /** The rest of a write: k bytes more, and the move of the head. */
  function WriteSteps(k: nat): seq<Step> {
    if k == 0 then [EndWrite] else [WriteByte] + WriteSteps(k - 1)
  }

  /** The rest of a read: k bytes more, and the move of the tail. */
  function ReadSteps(k: nat): seq<Step> {
    if k == 0 then [EndRead] else [ReadByte] + ReadSteps(k - 1)
  }

  lemma OneStep(s: State, step: Step, rest: seq<Step>)
    requires Inv(s) && Enabled(s, step) && Inv(Apply(s, step)) && Possible(Apply(s, step), rest)
    ensures Possible(s, [step] + rest) && Run(s, [step] + rest) == Run(Apply(s, step), rest)
  {
    hide Inv, Apply, Enabled;
    assert ([step] + rest)[1..] == rest;
  }

  lemma LastStep(s: State, step: Step)
    requires Inv(s) && Enabled(s, step) && Inv(Apply(s, step))
    ensures Possible(s, [step]) && Run(s, [step]) == Apply(s, step)
  {
    hide Inv, Apply, Enabled;
    assert [step][1..] == [];
  }

  // ----- Writing

  lemma {:induction false} CopyGoes(s: State, k: nat)
    requires Inv(s) && s.writer.Writing? && s.writer.commit && s.writer.written + k == |s.writer.plan|
    ensures Possible(s, WriteSteps(k))
    ensures var e := Run(s, WriteSteps(k));
            && e.sent == s.sent + [s.writer.body] && e.writer == WriterIdle
            && e.received == s.received && e.reader == s.reader && e.tail == s.tail
    decreases k
  {
    assert Fits(s);
    hide Inv, Fits;
    if k == 0 {
      StepKeeps(s, EndWrite);
      LastStep(s, EndWrite);
    } else {
      StepKeeps(s, WriteByte);
      var s1 := Apply(s, WriteByte);
      CopyGoes(s1, k - 1);
      hide Possible, Run;
      OneStep(s, WriteByte, WriteSteps(k - 1));
    }
  }

  /** How much of n bytes is sent into a buffer with this many bytes free: a message whole or not at all. */
  function Sendable(framed: bool, n: int, free: int): int {
    if framed then (if n + PREFIX <= free then n else 0) else if n < free then n else free
  }

  /** A write that nothing interrupts on the writer's side sends what there was room for when it began. */
  lemma WriteGoes(s: State, body: seq<Byte>)
    requires Inv(s) && s.writer == WriterIdle && |body| < SIZE_MODULUS
    ensures var n := Sendable(s.framed, |body|, |s.data| - 1 - Used(s));
            n > 0 ==>
              var steps := [BeginWrite(body)] + WriteSteps(PrefixOf(s) + n);
              && Possible(s, steps)
              && var e := Run(s, steps);
                 e.sent == s.sent + [body[..n]] && e.writer == WriterIdle && e.received == s.received && e.reader == s.reader
  {
    UsedAndFree(|s.data|, s.head, s.tail);
    var n := Sendable(s.framed, |body|, |s.data| - 1 - Used(s));
    if n > 0 {
      StepKeeps(s, BeginWrite(body));
      var s1 := Apply(s, BeginWrite(body));
      assert s.framed ==> body[..n] == body;
      assert s1.writer.Writing? && s1.writer.commit && s1.writer.body == body[..n] && |s1.writer.plan| == PrefixOf(s) + n;
      hide Inv, Apply;
      CopyGoes(s1, PrefixOf(s) + n);
      OneStep(s, BeginWrite(body), WriteSteps(PrefixOf(s) + n));
    }
  }

  // ----- Reading

  /** How many bytes a read of at most max gets, when `available` bytes are there. */
  ghost function Receivable(s: State, max: int, available: int): int
    requires s.framed ==> |s.received| < |s.sent|
  {
    if s.framed then (if |s.sent[|s.received|]| <= max then |s.sent[|s.received|]| else 0)
    else if max < available then max else available
  }

  lemma CompleteWhen(s: State)
    requires Inv(s) && s.reader.Reading?
    ensures s.framed ==> |s.received| < |s.sent|
    ensures var n := PrefixOf(s) + Receivable(s, s.reader.max, s.reader.available);
            && |s.reader.got| <= n && (Complete(s, s.reader) <==> |s.reader.got| == n)
            && (Complete(s, s.reader) ==> Wanted(s, s.reader) == n - PrefixOf(s))
  {
    UsedAndFree(|s.data|, s.head, s.tail);
    if s.framed && |s.reader.got| >= PREFIX {
      LengthIsRight(s, s.reader.got);
    }
    hide Encode, LengthOf, Contents, WriterFits;
  }

  /** What the reader gets with its last step: the first message, or the first bytes. */
  lemma EndGets(s: State)
    requires Inv(s) && Complete(s, s.reader)
    ensures s.framed ==> |s.received| < |s.sent|
    ensures var n, e := Receivable(s, s.reader.max, s.reader.available), Apply(s, EndRead);
            && 0 <= n <= |Contents(s)| && e.reader == ReaderIdle && e.sent == s.sent && e.writer == s.writer
            && e.received == s.received + if n == 0 then [] else [if s.framed then s.sent[|s.received|] else Contents(s)[..n]]
  {
    UsedAndFree(|s.data|, s.head, s.tail);
    CompleteWhen(s);
    EndReadKeeps(s);
    assert s.framed ==> 0 < |s.sent[|s.received|]|;
    hide Encode, LengthOf, Contents, WriterFits, Wanted;
    if !s.framed {
      assert s.reader.got[0..] == s.reader.got;
    }
  }

  lemma ByteMore(s: State)
    requires Inv(s) && s.reader.Reading? && Enabled(s, ReadByte)
    ensures var s1 := Apply(s, ReadByte);
            && Inv(s1) && s1.framed == s.framed && s1.sent == s.sent && s1.received == s.received && s1.writer == s.writer
            && s1.reader.Reading? && s1.reader.max == s.reader.max && s1.reader.available == s.reader.available
            && |s1.reader.got| == |s.reader.got| + 1 && Contents(s1) == Contents(s)
  {
    StepKeeps(s, ReadByte);
    hide Encode, LengthOf, WriterFits;
  }

  lemma {:induction false} FetchGoes(s: State, k: nat)
    requires Inv(s) && s.reader.Reading? && (s.framed ==> |s.received| < |s.sent|)
    requires |s.reader.got| + k == PrefixOf(s) + Receivable(s, s.reader.max, s.reader.available)
    ensures Possible(s, ReadSteps(k))
    ensures var n, e := Receivable(s, s.reader.max, s.reader.available), Run(s, ReadSteps(k));
            && 0 <= n <= |Contents(s)| && e.reader == ReaderIdle && e.sent == s.sent && e.writer == s.writer
            && e.received == s.received + if n == 0 then [] else [if s.framed then s.sent[|s.received|] else Contents(s)[..n]]
    decreases k
  {
    CompleteWhen(s);
    assert Fits(s);
    hide Inv, Fits, Contents, Complete, Wanted;
    if k == 0 {
      StepKeeps(s, EndRead);
      EndGets(s);
      LastStep(s, EndRead);
    } else {
      ByteMore(s);
      var s1 := Apply(s, ReadByte);
      FetchGoes(s1, k - 1);
      hide Possible, Run, Apply;
      OneStep(s, ReadByte, ReadSteps(k - 1));
    }
  }

  /** A read that nothing interrupts on the reader's side gets what was there when it began, as far as there is room for it. */
  lemma ReadGoes(s: State, max: nat)
    requires Inv(s) && s.reader == ReaderIdle && Used(s) > PrefixOf(s)
    ensures s.framed ==> |s.received| < |s.sent|
    ensures var n := Receivable(s, max, Used(s));
            && 0 <= n <= |Contents(s)|
            && var steps := [BeginRead(max)] + ReadSteps(PrefixOf(s) + n);
               && Possible(s, steps)
               && var e := Run(s, steps);
                  && e.reader == ReaderIdle && e.sent == s.sent && e.writer == s.writer
                  && e.received == s.received + if n == 0 then [] else [if s.framed then s.sent[|s.received|] else Contents(s)[..n]]
  {
    UsedAndFree(|s.data|, s.head, s.tail);
    if s.framed {
      ContentsAreRecords(s);
    }
    StepKeeps(s, BeginRead(max));
    var s1 := Apply(s, BeginRead(max));
    var n := Receivable(s, max, Used(s));
    assert Contents(s1) == Contents(s) && s1.reader.got == [];
    hide Inv, Contents, Apply;
    FetchGoes(s1, PrefixOf(s) + n);
    OneStep(s, BeginRead(max), ReadSteps(PrefixOf(s) + n));
  }
}
