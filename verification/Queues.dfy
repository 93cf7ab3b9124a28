/** The storage area of a queue: a ring of bytes that behaves as a bounded deque of whole items, and the
    queue object that keeps it together with its locks and event lists. */
module Queues {
  import opened QueueProtocol

  type Item = seq<bv8>

  datatype Position = Back | Front | Overwrite

  // ---------- the deque ----------

  /** Overwriting replaces the one item of a queue of length 1; among items of size zero there is nothing
      to replace and the count goes up instead. */
  function Sent(items: seq<Item>, x: Item, position: Position): seq<Item> {
    match position
    case Back => items + [x]
    case Front => [x] + items
    case Overwrite => if x == [] then items + [x] else [x]
  }

  datatype Operation = Send(item: Item, position: Position) | Receive | Peek

  /** Runs operations on a deque of the given capacity: what is left and what the receives returned. */
  function RunDeque(items: seq<Item>, length: nat, run: seq<Operation>): (seq<Item>, seq<Item>)
    decreases |run|
  {
    if run == [] then (items, [])
    else
      match run[0]
      case Send(x, p) =>
        RunDeque(if |items| < length || p.Overwrite? then Sent(items, x, p) else items, length, run[1..])
      case Receive =>
        if items == [] then RunDeque(items, length, run[1..])
        else
          var (left, received) := RunDeque(items[1..], length, run[1..]);
          (left, [items[0]] + received)
      case Peek => RunDeque(items, length, run[1..])
  }

  /** The items that the sends of a run got into the deque. */
  function Accepted(items: seq<Item>, length: nat, run: seq<Operation>): seq<Item>
    decreases |run|
  {
    if run == [] then []
    else
      match run[0]
      case Send(x, p) =>
        if |items| < length || p.Overwrite? then [x] + Accepted(Sent(items, x, p), length, run[1..])
        else Accepted(items, length, run[1..])
      case Receive => Accepted(if items == [] then items else items[1..], length, run[1..])
      case Peek => Accepted(items, length, run[1..])
  }

  /** First in, first out: with sends to the back only, what has been received followed by what is still
      there is exactly what was there followed by what was sent. */
  lemma {:induction false} FirstInFirstOut(items: seq<Item>, length: nat, run: seq<Operation>)
    requires forall o :: o in run && o.Send? ==> o.position.Back?
    ensures var (left, received) := RunDeque(items, length, run);
            received + left == items + Accepted(items, length, run)
    decreases |run|
  {
    if run != [] {
      match run[0]
      case Send(x, p) =>
        assert run[0] in run;
        if |items| < length {
          FirstInFirstOut(items + [x], length, run[1..]);
          assert items + [x] + Accepted(items + [x], length, run[1..])
              == items + ([x] + Accepted(items + [x], length, run[1..]));
        } else {
          FirstInFirstOut(items, length, run[1..]);
        }
      case Receive =>
        if items == [] {
          FirstInFirstOut(items, length, run[1..]);
        } else {
          FirstInFirstOut(items[1..], length, run[1..]);
          var (left, received) := RunDeque(items[1..], length, run[1..]);
          assert [items[0]] + received + left == [items[0]] + (received + left);
          assert items == [items[0]] + items[1..];
        }
      case Peek => FirstInFirstOut(items, length, run[1..]);
    }
  }

  function Receives(n: nat): seq<Operation> {
    if n == 0 then [] else [Receive] + Receives(n - 1)
  }

  /** Receiving empties the deque from its front, and from an empty one gets nothing. */
  lemma {:induction false} ReceivesInOrder(items: seq<Item>, length: nat, n: nat)
    ensures RunDeque(items, length, Receives(n))
            == if n <= |items| then (items[n..], items[..n]) else ([], items)
    decreases n
  {
    if n > 0 {
      assert Receives(n)[0] == Receive && Receives(n)[1..] == Receives(n - 1);
      if items == [] {
        ReceivesInOrder(items, length, n - 1);
      } else {
        var rest := items[1..];
        ReceivesInOrder(rest, length, n - 1);
        assert items == [items[0]] + rest;
        if n <= |items| {
          assert rest[n - 1..] == items[n..] && [items[0]] + rest[..n - 1] == items[..n];
        }
      }
    }
  }

  /** A send is accepted exactly if the deque is not full or is overwritten; what is sent to the back comes out last,
      what is sent to the front first, and what overwrites alone. */
  lemma {:induction false} SentComesOut(items: seq<Item>, length: nat, x: Item, position: Position)
    requires x != [] && (position.Overwrite? ==> length == 1) && |items| <= length
    ensures var (left, received) := RunDeque(items, length, [Send(x, position)] + Receives(|items| + 1));
            && left == []
            && match position
               case Back => received == if |items| < length then items + [x] else items
               case Front => received == if |items| < length then [x] + items else items
               case Overwrite => received == [x]
  {
    var run := [Send(x, position)] + Receives(|items| + 1);
    assert run[0] == Send(x, position) && run[1..] == Receives(|items| + 1);
    ReceivesInOrder(items + [x], length, |items| + 1);
    ReceivesInOrder([x] + items, length, |items| + 1);
    ReceivesInOrder([x], length, |items| + 1);
    ReceivesInOrder(items, length, |items| + 1);
  }

  // ---------- the ring of bytes ----------

  /** Slot numbers are counted modulo the length. */
  function Wrap(slot: nat, length: nat): (r: nat)
    requires 0 < length && slot < 3 * length
    ensures r < length
  {
    if slot < length then slot else if slot < 2 * length then slot - length else slot - 2 * length
  }

  lemma SlotFits(slot: nat, length: nat, size: nat)
    requires slot < length
    ensures 0 <= slot * size && slot * size + size <= length * size
  {
    assert (length - slot - 1) * size >= 0;
    assert (length - slot - 1) * size == length * size - slot * size - size;
  }

  lemma SlotsApart(s: nat, t: nat, size: nat)
    requires s < t
    ensures s * size + size <= t * size
  {
    SlotFits(s, t, size);
  }

  function Slot(bytes: seq<bv8>, length: nat, size: nat, slot: nat): (x: Item)
    requires slot < length && length * size <= |bytes|
    ensures |x| == size
  {
    SlotFits(slot, length, size);
    bytes[slot * size..slot * size + size]
  }

  /** The items of a ring that last read slot `read` and holds `count` of them. */
  function Items(bytes: seq<bv8>, length: nat, size: nat, read: nat, count: nat): (items: seq<Item>)
    requires read < length && length * size <= |bytes| && (size > 0 ==> count <= length)
    ensures |items| == count
  {
    seq(count, i requires 0 <= i < count =>
      if size == 0 then [] else Slot(bytes, length, size, Wrap(read + 1 + i, length)))
  }

  /** memcpy of `x` to offset `at`. */
  function Poked(bytes: seq<bv8>, at: nat, x: Item): (r: seq<bv8>)
    requires at + |x| <= |bytes|
    ensures |r| == |bytes|
  {
    bytes[..at] + x + bytes[at + |x|..]
  }

  lemma PokedSlot(bytes: seq<bv8>, length: nat, size: nat, slot: nat, x: Item)
    requires slot < length && length * size <= |bytes| && |x| == size
    ensures slot * size + size <= length * size
    ensures Slot(Poked(bytes, slot * size, x), length, size, slot) == x
    ensures forall t: nat :: t < length && t != slot ==>
              Slot(Poked(bytes, slot * size, x), length, size, t) == Slot(bytes, length, size, t)
  {
    SlotFits(slot, length, size);
    forall t: nat | t < length && t != slot
      ensures Slot(Poked(bytes, slot * size, x), length, size, t) == Slot(bytes, length, size, t)
    {
      SlotFits(t, length, size);
      if t < slot {
        SlotsApart(t, slot, size);
      } else {
        SlotsApart(slot, t, size);
      }
      PokedElsewhere(bytes, slot * size, x, t * size, size);
    }
  }

  lemma PokedElsewhere(bytes: seq<bv8>, at: nat, x: Item, from: nat, size: nat)
    requires at + |x| <= |bytes| && from + size <= |bytes| && (from + size <= at || at + |x| <= from)
    ensures Poked(bytes, at, x)[from..from + size] == bytes[from..from + size]
  {
  }

  /** Items of size zero are only counted. */
  lemma CountUp(bytes: seq<bv8>, length: nat, read: nat, count: nat, position: Position)
    requires read < length
    ensures Items(bytes, length, 0, read, count + 1) == Sent(Items(bytes, length, 0, read, count), [], position)
  {
  }

  /** Writing the slot behind the last item appends an item ... */
  lemma WriteBehind(bytes: seq<bv8>, length: nat, size: nat, read: nat, count: nat, x: Item)
    requires read < length && length * size <= |bytes| && size > 0 && count < length && |x| == size
    ensures var w := Wrap(read + 1 + count, length);
            && w * size + size <= length * size
            && Items(Poked(bytes, w * size, x), length, size, read, count + 1)
               == Items(bytes, length, size, read, count) + [x]
  {
    var w := Wrap(read + 1 + count, length);
    PokedSlot(bytes, length, size, w, x);
    var l, r := Items(Poked(bytes, w * size, x), length, size, read, count + 1),
                Items(bytes, length, size, read, count) + [x];
    forall i | 0 <= i < count + 1 ensures l[i] == r[i] {
      if i < count {
        assert Wrap(read + 1 + i, length) != w;
      }
    }
  }

  /** The slot before a slot, as `pcReadFrom` steps back. */
  function Before(slot: nat, length: nat): (r: nat)
    requires slot < length
    ensures r < length
  {
    if slot == 0 then length - 1 else slot - 1
  }

  /** ... writing the slot last read, and stepping back over it, prepends one ... */
  lemma WriteInFront(bytes: seq<bv8>, length: nat, size: nat, read: nat, count: nat, x: Item)
    requires read < length && length * size <= |bytes| && size > 0 && count < length && |x| == size
    ensures read * size + size <= length * size
    ensures Items(Poked(bytes, read * size, x), length, size, Before(read, length), count + 1)
            == [x] + Items(bytes, length, size, read, count)
  {
    PokedSlot(bytes, length, size, read, x);
    var after := Poked(bytes, read * size, x);
    var l, r := Items(after, length, size, Before(read, length), count + 1),
                [x] + Items(bytes, length, size, read, count);
    forall i | 0 <= i < count + 1 ensures l[i] == r[i] {
      if i > 0 {
        assert Wrap(Before(read, length) + 1 + i, length) == Wrap(read + 1 + (i - 1), length);
      }
    }
  }

  /** ... or, in a ring of one slot, overwrites the item there is.  The write position stays ... */
  lemma WriteInFrontOrOver(bytes: seq<bv8>, length: nat, size: nat, read: nat, count: nat, x: Item, over: bool)
    requires read < length && length * size <= |bytes| && size > 0 && count <= length && |x| == size
    requires if over then length == 1 else count < length
    ensures read * size + size <= length * size
    ensures var left := if over && count > 0 then count - 1 else count;
            && Wrap(Before(read, length) + 1 + (left + 1), length) == Wrap(read + 1 + count, length)
            && Items(Poked(bytes, read * size, x), length, size, Before(read, length), left + 1)
               == Sent(Items(bytes, length, size, read, count), x, if over then Overwrite else Front)
  {
    if count < length {
      WriteInFront(bytes, length, size, read, count, x);
    } else {
      PokedSlot(bytes, length, size, read, x);
    }
  }

  /** ... and stepping forward takes the first item off. */
  lemma StepForward(bytes: seq<bv8>, length: nat, size: nat, read: nat, count: nat)
    requires read < length && length * size <= |bytes| && size > 0 && 0 < count <= length
    ensures var next := Wrap(read + 1, length);
            && Items(bytes, length, size, read, count)[0] == Slot(bytes, length, size, next)
            && Items(bytes, length, size, next, count - 1) == Items(bytes, length, size, read, count)[1..]
  {
    var next := Wrap(read + 1, length);
    var l, r := Items(bytes, length, size, next, count - 1), Items(bytes, length, size, read, count)[1..];
    forall i | 0 <= i < count - 1 ensures l[i] == r[i] {
      assert Wrap(next + 1 + i, length) == Wrap(read + 1 + (i + 1), length);
    }
  }

  // ---------- the queue object ----------

  /** Queue_t.  Pointers into the storage area are offsets from pcHead. */
  class Queue {
    const length: nat
    const itemSize: nat
    const storage: array<bv8>
    var writeTo: int
    var readFrom: int
    var messages: nat
    var txLock: int
    var rxLock: int
    var receivers: seq<TaskId>
    var senders: seq<TaskId>
    /** The slot last read, and what the tasks around the queue are doing. */
    ghost var read: nat
    ghost var region: Region
    ghost var receiversWoken: set<TaskId>
    ghost var sendersWoken: set<TaskId>

    /** The offsets are aligned and in range, and the write offset is where the deque ends. */
    ghost predicate Valid()
      reads `writeTo, `readFrom, `messages, `read
    {
      && 0 < length
      && storage.Length == (if itemSize == 0 then 0 else length * itemSize + 1)
      && read < length
      && readFrom == read * itemSize
      && (itemSize > 0 ==> messages <= length)
      && writeTo == if itemSize == 0 then 0 else Wrap(read + 1 + messages, length) * itemSize
    }

    ghost function Contents(): (items: seq<Item>)
      requires Valid()
      reads `writeTo, `readFrom, `messages, `read, storage
      ensures |items| == messages
    {
      assert itemSize == 0 ==> length * itemSize == 0;
      Items(storage[..], length, itemSize, read, messages)
    }

    ghost function State(): Protocol
      reads this
    {
      Protocol(messages, length, itemSize == 0, txLock, rxLock, receivers, senders, region,
               receiversWoken, sendersWoken)
    }

    /** pcTail. */
    function Tail(): nat {
      length * itemSize
    }

    /** xQueueGenericCreate, with the reset of a new queue. */
    constructor (length: nat, itemSize: nat)
      requires 0 < length
      ensures Valid() && fresh(storage) && this.length == length && this.itemSize == itemSize
      ensures Contents() == [] && State() == Created(length, 0, itemSize == 0)
    {
      this.length, this.itemSize := length, itemSize;
      storage := new bv8[if itemSize == 0 then 0 else length * itemSize + 1];
      messages, writeTo, readFrom := 0, 0, (length - 1) * itemSize;
      txLock, rxLock := UNLOCKED, UNLOCKED;
      receivers, senders := [], [];
      read, region, receiversWoken, sendersWoken := length - 1, Open, {}, {};
    }

    method Copy(at: nat, item: Item)
      requires at + |item| <= storage.Length
      modifies storage
      ensures storage[..] == Poked(old(storage[..]), at, item)
    {
      forall k | 0 <= k < |item| {
        storage[at + k] := item[k];
      }
    }

    /** The two ways prvCopyDataToQueue moves a pointer past the item it has copied in. */
    method WriteAtBack(item: Item)
      requires Valid() && |item| == itemSize && itemSize > 0 && messages < length
      modifies storage, `writeTo
      ensures var w := Wrap(read + 1 + messages, length);
              && w * itemSize + itemSize <= length * itemSize
              && storage[..] == Poked(old(storage[..]), w * itemSize, item)
      ensures writeTo == Wrap(read + 1 + (messages + 1), length) * itemSize
    {
      ghost var w := Wrap(read + 1 + messages, length);
      SlotFits(w, length, itemSize);
      Copy(writeTo, item);
      StepSlot(w);
      writeTo := writeTo + itemSize;
      if writeTo >= Tail() {
        writeTo := 0;
      }
      assert Wrap(read + 1 + (messages + 1), length) == if w + 1 < length then w + 1 else 0;
    }

    method WriteAtFront(item: Item)
      requires Valid() && |item| == itemSize && itemSize > 0
      modifies storage, `readFrom, `read
      ensures read == Before(old(read), length) && readFrom == read * itemSize
      ensures old(read) * itemSize + itemSize <= length * itemSize
      ensures storage[..] == Poked(old(storage[..]), old(read) * itemSize, item)
    {
      SlotFits(read, length, itemSize);
      Copy(readFrom, item);
      StepSlot(read);
      StepSlot(Before(read, length));
      readFrom := readFrom - itemSize;
      if readFrom < 0 {
        readFrom := Tail() - itemSize;
      }
      read := Before(read, length);
    }

    /** prvCopyDataToQueue. */
    method CopyDataToQueue(item: Item, position: Position)
      requires Valid() && |item| == itemSize
      requires itemSize > 0 ==> messages < length || position.Overwrite?
      requires position.Overwrite? ==> length == 1
      modifies storage, `writeTo, `readFrom, `messages, `read
      ensures Valid() && Contents() == Sent(old(Contents()), item, position)
    {
      ghost var sent := Sent(Contents(), item, position);
      if itemSize == 0 {
        CountUp(storage[..], length, read, messages, position);
        assert item == [];
      } else if position.Back? {
        WriteBehind(storage[..], length, itemSize, read, messages, item);
        WriteAtBack(item);
      } else {
        WriteInFrontOrOver(storage[..], length, itemSize, read, messages, item, position.Overwrite?);
        WriteAtFront(item);
        if position.Overwrite? {
          if messages > 0 {
            messages := messages - 1;
          }
        }
      }
      assert Items(storage[..], length, itemSize, read, messages + 1) == sent;
      messages := messages + 1;
    }

    /** One slot forward is one item size further, or back at the head. */
    lemma StepSlot(slot: nat)
      requires slot < length && itemSize > 0
      ensures slot * itemSize + itemSize ==
              if slot + 1 < length then (slot + 1) * itemSize else length * itemSize
      ensures slot + 1 < length ==> (slot + 1) * itemSize < length * itemSize
      ensures slot > 0 ==> slot * itemSize > 0
    {
      if slot + 1 < length {
        SlotFits(slot + 1, length, itemSize);
      }
      if slot > 0 {
        SlotFits(0, slot, itemSize);
      }
    }

    /** prvCopyDataFromQueue. */
    method CopyDataFromQueue() returns (item: Item)
      requires Valid() && messages > 0
      modifies `readFrom, `read
      ensures read < length && readFrom == read * itemSize
      ensures item == old(Contents())[0]
      ensures itemSize > 0 ==> read == Wrap(old(read) + 1, length)
      ensures itemSize == 0 ==> read == old(read)
    {
      item := [];
      if itemSize != 0 {
        StepForward(storage[..], length, itemSize, read, messages);
        StepSlot(read);
        readFrom := readFrom + itemSize;
        if readFrom >= Tail() {
          readFrom := 0;
        }
        read := Wrap(read + 1, length);
        SlotFits(read, length, itemSize);
        item := storage[readFrom..readFrom + itemSize];
      }
    }

    // ---------- the event lists ----------

    /** xTaskRemoveFromEventList on either list, if it is not empty. */
    method UnblockReceiver()
      modifies `receivers, `receiversWoken
      ensures State() == WakeReceiver(old(State()))
    {
      if receivers != [] {
        receiversWoken := receiversWoken + {receivers[0]};
        receivers := receivers[1..];
      }
    }

    method UnblockSender()
      modifies `senders, `sendersWoken
      ensures State() == WakeSender(old(State()))
    {
      if senders != [] {
        sendersWoken := sendersWoken + {senders[0]};
        senders := senders[1..];
      }
    }

    // ---------- the critical sections ----------

    /** The head of the loop of xQueueGenericSend. */
    method TrySend(t: TaskId, item: Item, position: Position) returns (sent: bool)
      requires Valid() && |item| == itemSize && (position.Overwrite? ==> length == 1)
      modifies this, storage
      ensures Valid() && State() == SendTop(old(State()), t, position.Overwrite?)
      ensures sent == CanSend(old(State()), position.Overwrite?)
      ensures Contents() == if sent then Sent(old(Contents()), item, position) else old(Contents())
    {
      sendersWoken := sendersWoken - {t};
      sent := messages < length || position.Overwrite?;
      if sent {
        CopyDataToQueue(item, position);
        UnblockReceiver();
      }
    }

    /** The head of the loop of xQueueGenericReceive; a peek puts the read pointer back. */
    method TryReceive(t: TaskId, peek: bool) returns (received: bool, item: Item)
      requires Valid()
      modifies this
      ensures Valid() && State() == ReceiveTop(old(State()), t, peek)
      ensures received == (old(messages) > 0)
      ensures received ==> item == old(Contents())[0]
      ensures Contents() == if received && !peek then old(Contents())[1..] else old(Contents())
    {
      receiversWoken := receiversWoken - {t};
      received, item := messages > 0, [];
      if received {
        var originalReadPosition := readFrom;
        ghost var originalRead := read;
        Taken();
        item := CopyDataFromQueue();
        if peek {
          readFrom, read := originalReadPosition, originalRead;
          UnblockReceiver();
        } else {
          messages := messages - 1;
          UnblockSender();
        }
      }
    }

    /** What the deque and the write position are after the first item has been taken off. */
    lemma Taken()
      requires Valid() && messages > 0
      ensures var next := if itemSize == 0 then read else Wrap(read + 1, length);
              && Items(storage[..], length, itemSize, next, messages - 1) == Contents()[1..]
              && (itemSize > 0 ==> Wrap(next + 1 + (messages - 1), length) == Wrap(read + 1 + messages, length))
    {
      if itemSize > 0 {
        StepForward(storage[..], length, itemSize, read, messages);
      }
    }

    /** prvLockQueue. */
    method Lock(t: TaskId, receiving: bool)
      modifies `txLock, `rxLock, `region
      ensures State() == LockQueue(old(State()), t, receiving)
    {
      if rxLock == UNLOCKED {
        rxLock := 0;
      }
      if txLock == UNLOCKED {
        txLock := 0;
      }
      region := Locked(t, receiving);
    }

    /** The two critical sections of prvUnlockQueue: one task is woken for each item that an interrupt
        added (took out) while the queue was locked, until the event list is empty. */
    method UnlockTransmit()
      requires region.Unlocking?
      modifies `txLock, `receivers, `receiversWoken, `region
      ensures State() == UnlockTx(old(State()))
    {
      ghost var n := 0;
      while txLock > 0
        invariant 0 <= n <= |old(receivers)| && receivers == old(receivers)[n..]
        invariant receiversWoken == old(receiversWoken) + Members(old(receivers)[..n])
        invariant region == old(region) && txLock == old(txLock) - n
        invariant old(txLock) > 0 ==> n <= old(txLock)
        invariant old(txLock) <= 0 ==> n == 0
      {
        if receivers != [] {
          assert old(receivers)[..n + 1] == old(receivers)[..n] + [receivers[0]];
          UnblockReceiver();
          n := n + 1;
        } else {
          break;
        }
        txLock := txLock - 1;
      }
      txLock := UNLOCKED;
      region := HalfUnlocked(region.task);
    }

    method UnlockReceive()
      requires region.HalfUnlocked?
      modifies `rxLock, `senders, `sendersWoken, `region
      ensures State() == UnlockRx(old(State()))
    {
      ghost var n := 0;
      while rxLock > 0
        invariant 0 <= n <= |old(senders)| && senders == old(senders)[n..]
        invariant sendersWoken == old(sendersWoken) + Members(old(senders)[..n])
        invariant region == old(region) && rxLock == old(rxLock) - n
        invariant old(rxLock) > 0 ==> n <= old(rxLock)
        invariant old(rxLock) <= 0 ==> n == 0
      {
        if senders != [] {
          assert old(senders)[..n + 1] == old(senders)[..n] + [senders[0]];
          UnblockSender();
          n := n + 1;
          rxLock := rxLock - 1;
        } else {
          break;
        }
      }
      rxLock := UNLOCKED;
      region := Open;
    }

    /** xQueueGenericSendFromISR. */
    method SendFromIsr(item: Item, position: Position) returns (sent: bool)
      requires Valid() && |item| == itemSize && (position.Overwrite? ==> length == 1)
      modifies this, storage
      ensures Valid() && State() == IsrSend(old(State()), position.Overwrite?)
      ensures sent == CanSend(old(State()), position.Overwrite?)
      ensures Contents() == if sent then Sent(old(Contents()), item, position) else old(Contents())
    {
      sent := messages < length || position.Overwrite?;
      if sent {
        CopyDataToQueue(item, position);
        if txLock == UNLOCKED {
          UnblockReceiver();
        } else {
          txLock := txLock + 1;
        }
      }
    }

    /** xQueueReceiveFromISR. */
    method ReceiveFromIsr() returns (received: bool, item: Item)
      requires Valid()
      modifies this
      ensures Valid() && State() == IsrReceive(old(State()))
      ensures received == (old(messages) > 0)
      ensures received ==> item == old(Contents())[0]
      ensures Contents() == if received then old(Contents())[1..] else old(Contents())
    {
      received, item := messages > 0, [];
      if received {
        Taken();
        item := CopyDataFromQueue();
        messages := messages - 1;
        if rxLock == UNLOCKED {
          UnblockSender();
        } else {
          rxLock := rxLock + 1;
        }
      }
    }

    /** xQueuePeekFromISR. */
    method PeekFromIsr() returns (received: bool, item: Item)
      requires Valid()
      modifies `readFrom, `read
      ensures Valid() && State() == old(State()) && Contents() == old(Contents())
      ensures received == (messages > 0)
      ensures received ==> item == Contents()[0]
    {
      received, item := messages > 0, [];
      if received {
        var originalReadPosition := readFrom;
        ghost var originalRead := read;
        item := CopyDataFromQueue();
        readFrom, read := originalReadPosition, originalRead;
      }
    }

    // ---------- first in, first out ----------

    predicate Fits(o: Operation) {
      o.Send? ==> |o.item| == itemSize && (o.position.Overwrite? ==> length == 1)
    }

    /** Any operations in a row, made by task `t`: the bytes behave as the deque, and with sends to the back only
        the items come out as they went in. */
    method Operate(t: TaskId, run: seq<Operation>) returns (received: seq<Item>)
      requires Valid() && forall o <- run :: Fits(o)
      modifies this, storage
      ensures Valid() && (Contents(), received) == RunDeque(old(Contents()), length, run)
      ensures (forall o :: o in run && o.Send? ==> o.position.Back?) ==>
                received + Contents() == old(Contents()) + Accepted(old(Contents()), length, run)
      decreases |run|
    {
      received := [];
      ghost var items := Contents();
      if run != [] {
        assert run[0] in run && Fits(run[0]);
        var ok, first := false, [];
        match run[0] {
          case Send(x, position) => ok := TrySend(t, x, position);
          case Receive => ok, first := TryReceive(t, false);
          case Peek => ok, first := TryReceive(t, true);
        }
        var rest := Operate(t, run[1..]);
        received := if run[0].Receive? && ok then [first] + rest else rest;
      }
      if forall o :: o in run && o.Send? ==> o.position.Back? {
        FirstInFirstOut(items, length, run);
      }
    }
  }
}
