/**
The storage area of a queue (rtos/source/queue.c), slot by slot: a ring in which pcWriteTo is
the next slot to write and pcReadFrom the slot last read.  It refines a bounded deque.
*/
module QueueStorage {
  import opened Config
  import opened Rings

  datatype Position = SendToBack | SendToFront | Overwrite

  datatype Storage<T> = Storage(slots: seq<T>, writeTo: int, readFrom: int, messagesWaiting: int)

  /** The first unread slot. */
  function Front<T>(s: Storage<T>): int {
    At(|s.slots|, s.readFrom + 1)
  }

  /** The write slot is always the read slot plus the number of messages plus one, modulo the length. */
  predicate InOrder<T>(s: Storage<T>) {
    && 0 <= s.readFrom < |s.slots| && 0 <= s.messagesWaiting <= |s.slots|
    && s.writeTo == At(|s.slots|, Front(s) + s.messagesWaiting)
  }

  /** The unread items, in the order they will be received. */
  function Items<T>(s: Storage<T>): seq<T>
    requires InOrder(s)
  {
    Window(s.slots, Front(s), s.messagesWaiting)
  }

  /** xQueueGenericReset() */
  function Reset<T>(s: Storage<T>): Storage<T> {
    s.(writeTo := 0, readFrom := |s.slots| - 1, messagesWaiting := 0)
  }

  /** prvCopyDataToQueue() */
  function Copied<T>(s: Storage<T>, x: T, position: Position): Storage<T>
    requires InOrder(s)
  {
    var size := |s.slots|;
    if position.SendToBack? then
      s.(slots := s.slots[s.writeTo := x], writeTo := if s.writeTo + 1 >= size then 0 else s.writeTo + 1,
         messagesWaiting := s.messagesWaiting + 1)
    else
      s.(slots := s.slots[s.readFrom := x], readFrom := if s.readFrom - 1 < 0 then size - 1 else s.readFrom - 1,
         messagesWaiting := (if position.Overwrite? && s.messagesWaiting > 0 then s.messagesWaiting - 1
                             else s.messagesWaiting) + 1)
  }

  /** prvCopyDataFromQueue(), and one message less. */
  function Received<T>(s: Storage<T>): Storage<T> {
    s.(readFrom := if s.readFrom + 1 >= |s.slots| then 0 else s.readFrom + 1, messagesWaiting := s.messagesWaiting - 1)
  }

  lemma ResetIsEmpty<T>(s: Storage<T>)
    requires |s.slots| > 0
    ensures InOrder(Reset(s)) && Items(Reset(s)) == []
  {
  }

  /** Room is what the guards of the send functions ask for. */
  predicate HasRoom<T>(s: Storage<T>, position: Position) {
    s.messagesWaiting < |s.slots| || (position.Overwrite? && |s.slots| == 1)
  }

  /**
  A send puts the item at the end it names and leaves every unread item where it was in the
  order; only an overwrite, on a queue of length one, replaces the item that is there.
  */
  lemma SendRefines<T>(s: Storage<T>, x: T, position: Position)
    requires InOrder(s) && HasRoom(s, position) && (position.Overwrite? ==> |s.slots| == 1)
    ensures var s' := Copied(s, x, position);
            && InOrder(s') && |s'.slots| == |s.slots|
            && Items(s') == match position
                            case SendToBack => Items(s) + [x]
                            case SendToFront => [x] + Items(s)
                            case Overwrite => [x]
  {
    var s', f, n := Copied(s, x, position), Front(s), s.messagesWaiting;
    match position
    case SendToBack =>
      PokeOutside(s.slots, f, n, n, x);
      if n + 1 <= |s.slots| && n < |s.slots| {
        WindowSplit(s'.slots, f, n, 1);
        WindowIndex(s'.slots, At(|s.slots|, f + n), 1);
        assert Window(s'.slots, At(|s.slots|, f + n), 1) == [x];
      }
    case SendToFront =>
      assert s.readFrom == At(|s.slots|, f + (|s.slots| - 1));
      PokeOutside(s.slots, f, n, |s.slots| - 1, x);
      FrontSplit(s', x);
    case Overwrite =>
      WindowIndex(s'.slots, Front(s'), 1);
      assert Items(s') == [x];
  }

  lemma FrontSplit<T>(s: Storage<T>, x: T)
    requires InOrder(s) && s.messagesWaiting > 0 && s.slots[Front(s)] == x
    ensures Items(s) == [x] + Window(s.slots, At(|s.slots|, Front(s) + 1), s.messagesWaiting - 1)
  {
    WindowIndex(s.slots, Front(s), s.messagesWaiting);
    WindowIndex(s.slots, At(|s.slots|, Front(s) + 1), s.messagesWaiting - 1);
  }

  /** A receive returns and removes the first item. */
  lemma ReceiveRefines<T>(s: Storage<T>)
    requires InOrder(s) && s.messagesWaiting > 0
    ensures var s' := Received(s);
            InOrder(s') && Items(s) == [s.slots[s'.readFrom]] + Items(s')
  {
    FrontSplit(s, s.slots[Front(s)]);
  }

  // ----- The code

  class Queue<T(0)> {
    const storage: array<T>
    var writeTo: int
    var readFrom: int
    var messagesWaiting: int

    ghost function St(): Storage<T>
      reads this, storage
    {
      Storage(storage[..], writeTo, readFrom, messagesWaiting)
    }

    ghost predicate Valid()
      reads this, storage
    {
      InOrder(St())
    }

    /** The messages, in the order they will be received. */
    ghost function Messages(): seq<T>
      requires Valid()
      reads this, storage
    {
      Items(St())
    }

    constructor (length: nat)
      requires length > 0
      ensures Valid() && fresh(storage) && storage.Length == length && Messages() == []
    {
      storage := new T[length];
      writeTo, readFrom, messagesWaiting := 0, length - 1, 0;
      new;
      ResetIsEmpty(St());
    }

    /** prvCopyDataToQueue() */
    method CopyDataToQueue(x: T, position: Position)
      requires Valid()
      modifies this, storage
      ensures St() == Copied(old(St()), x, position)
    {
      var n := messagesWaiting;
      if position.SendToBack? {
        storage[writeTo] := x;
        writeTo := writeTo + 1;
        if writeTo >= storage.Length {
          writeTo := 0;
        }
      } else {
        storage[readFrom] := x;
        readFrom := readFrom - 1;
        if readFrom < 0 {
          readFrom := storage.Length - 1;
        }
        if position.Overwrite? {
          if n > 0 {
            n := n - 1;
          }
        }
      }
      messagesWaiting := n + 1;
    }

    /** prvCopyDataFromQueue() */
    method CopyDataFromQueue() returns (x: T)
      requires Valid()
      modifies this`readFrom
      ensures readFrom == Front(old(St())) && x == storage[readFrom]
    {
      readFrom := readFrom + 1;
      if readFrom >= storage.Length {
        readFrom := 0;
      }
      x := storage[readFrom];
    }

    /** The guard and the copy of xQueueGenericSend() and its variants. */
    method Send(x: T, position: Position) returns (sent: bool)
      requires Valid() && (position.Overwrite? ==> storage.Length == 1)
      modifies this, storage
      ensures Valid()
      ensures sent <==> |old(Messages())| < storage.Length || position.Overwrite?
      ensures Messages() == if !sent then old(Messages())
                            else match position
                                 case SendToBack => old(Messages()) + [x]
                                 case SendToFront => [x] + old(Messages())
                                 case Overwrite => [x]
    {
      sent := messagesWaiting < storage.Length || position.Overwrite?;
      if sent {
        SendRefines(St(), x, position);
        CopyDataToQueue(x, position);
      }
    }

    /** The guard and the copy of xQueueReceive() and its variants. */
    method Receive() returns (r: Option<T>)
      requires Valid()
      modifies this`readFrom, this`messagesWaiting
      ensures Valid()
      ensures if old(Messages()) == [] then r == None && Messages() == []
              else r == Some(old(Messages())[0]) && Messages() == old(Messages())[1..]
    {
      r := None;
      if messagesWaiting > 0 {
        ReceiveRefines(St());
        var x := CopyDataFromQueue();
        messagesWaiting := messagesWaiting - 1;
        r := Some(x);
      }
    }

    /** xQueuePeek(): the read position is put back. */
    method Peek() returns (r: Option<T>)
      requires Valid()
      modifies this`readFrom
      ensures Valid() && St() == old(St())
      ensures r == if Messages() == [] then None else Some(Messages()[0])
    {
      r := None;
      if messagesWaiting > 0 {
        ReceiveRefines(St());
        var original := readFrom;
        var x := CopyDataFromQueue();
        readFrom := original;
        r := Some(x);
      }
    }
  }
}
